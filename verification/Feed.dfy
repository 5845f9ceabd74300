/**
 How market events change the book: a snapshot rebuilds it around its mid, an l2update
 folds its changes in order, and a long l2update travels as several events.
 */
module Feed {
  import opened Types
  import opened BookSpec
  import opened BookProperties

  /** `CoinbaseChange`: prices arrive as doubles. */
  datatype Change = Change(side: Side, px: real, qty: real)

  const SNAP_LEVELS: nat := 64
  const CHUNK: nat := 128

  // ---- snapshots

  /** Best live tick of a listed side: highest bid or lowest ask, if any level is live. */
  function BestListed(side: Side, ls: seq<PriceLevel>): Option<int> {
    if ls == [] then None
    else
      var best, l := BestListed(side, ls[..|ls| - 1]), ls[|ls| - 1];
      if l.qty <= 0.0 then best
      else if best.None? || Better(side, l.ticks, best.value) then Some(l.ticks)
      else best
  }

  /** Integer division by two, toward zero. */
  function Half(x: int): int {
    if x >= 0 then x / 2 else -((-x) / 2)
  }

  function Mid(bid: int, ask: int): int {
    bid + Half(ask - bid)
  }

  function FeedSide(b: Book, side: Side, ls: seq<PriceLevel>): (r: Book)
    requires Wf(b)
    ensures Wf(r) && r.cap == b.cap
  {
    if ls == [] then b
    else
      var l := ls[|ls| - 1];
      Update(FeedSide(b, side, ls[..|ls| - 1]), side, l.ticks, l.qty)
  }

  /** The cleared book, anchored on the mid when both sides list a live level. */
  function Anchored(b: Book, bids: seq<PriceLevel>, asks: seq<PriceLevel>): (r: Book)
    requires Wf(b)
    ensures Wf(r) && r.cap == b.cap
  {
    var bid, ask := BestListed(Bid, bids), BestListed(Ask, asks);
    if bid.Some? && ask.Some? then Seed(Clear(b), Mid(bid.value, ask.value)) else Clear(b)
  }

  function ApplySnapshot(b: Book, bids: seq<PriceLevel>, asks: seq<PriceLevel>): (r: Book)
    requires Wf(b)
    ensures Wf(r) && r.cap == b.cap
  {
    FeedSide(FeedSide(Anchored(b, bids, asks), Bid, bids), Ask, asks)
  }

  // ---- updates

  function ApplyChange(b: Book, c: Change, tick: real): (r: Book)
    requires Wf(b) && tick > 0.0
    ensures Wf(r) && r.cap == b.cap
  {
    Update(b, c.side, FromDouble(c.px, tick), c.qty)
  }

  function ApplyChanges(b: Book, cs: seq<Change>, tick: real): (r: Book)
    requires Wf(b) && tick > 0.0
    ensures Wf(r) && r.cap == b.cap
  {
    if cs == [] then b
    else ApplyChange(ApplyChanges(b, cs[..|cs| - 1], tick), cs[|cs| - 1], tick)
  }

  lemma {:induction false} ChangesInTwo(b: Book, xs: seq<Change>, ys: seq<Change>, tick: real)
    requires Wf(b) && tick > 0.0
    ensures ApplyChanges(b, xs + ys, tick) == ApplyChanges(ApplyChanges(b, xs, tick), ys, tick)
  {
    if ys == [] {
      assert xs + ys == xs;
    } else {
      var rest, zs := ys[..|ys| - 1], xs + ys;
      ChangesInTwo(b, xs, rest, tick);
      assert zs[..|zs| - 1] == xs + rest && zs[|zs| - 1] == ys[|ys| - 1];
    }
  }

  // ---- changes on plain maps

  /** What a message means for one side: its own changes, each put at its rounded tick, in order. */
  function Folded(m: map<int, real>, cs: seq<Change>, x: Side, tick: real): map<int, real>
    requires tick > 0.0
  {
    if cs == [] then m
    else
      var before, c := Folded(m, cs[..|cs| - 1], x, tick), cs[|cs| - 1];
      if c.side != x then before
      else if c.qty > 0.0 then before[FromDouble(c.px, tick) := c.qty]
      else before - {FromDouble(c.px, tick)}
  }

  /** One change puts its quantity at its rounded tick on its own side; the other side is only restricted. */
  lemma ChangeOnMaps(b: Book, c: Change, tick: real, x: Side)
    requires Wf(b) && tick > 0.0
    ensures var t, r := FromDouble(c.px, tick), ApplyChange(b, c, tick);
      Levels(r, x) ==
        if !InWindow(Seed(b, t), t) then Levels(b, x)
        else Restrict(Folded(Levels(b, x), [c], x, tick), r)
  {
    LevelsOfUpdate(b, c.side, FromDouble(c.px, tick), c.qty, x);
    FoldOne(Levels(b, x), c, x, tick);
    hide Levels, Update, Folded, Restrict;
  }

  lemma FoldOne(m: map<int, real>, c: Change, x: Side, tick: real)
    requires tick > 0.0
    ensures Folded(m, [c], x, tick) == if c.side == x then Put(m, FromDouble(c.px, tick), c.qty) else m
  {
    assert [c][..0] == [];
    assert Folded(m, [], x, tick) == m;
  }

  /** After any message at all, each level shown is in the fold of the levels before it with the same quantity. */
  lemma {:induction false} MessageShows(b: Book, cs: seq<Change>, tick: real, x: Side)
    requires Wf(b) && tick > 0.0
    ensures SubMap(Levels(ApplyChanges(b, cs, tick), x), Folded(Levels(b, x), cs, x, tick))
  {
    if cs != [] {
      var before, c := cs[..|cs| - 1], cs[|cs| - 1];
      var m := ApplyChanges(b, before, tick);
      var t := FromDouble(c.px, tick);
      MessageShows(b, before, tick, x);
      UpdateShows(m, c.side, t, c.qty, x);
      var had, has := Levels(m, x), Levels(ApplyChanges(b, cs, tick), x);
      if c.side == x { SubMapAfterPut(had, has, Folded(Levels(b, x), before, x, tick), t, c.qty); }
      hide Levels, Update;
    }
  }

  /** Every change of the message falls on a central slot of the book's window. */
  predicate CentralChanges(b: Book, cs: seq<Change>, tick: real)
    requires tick > 0.0
  {
    forall k :: 0 <= k < |cs| ==> CentralSlot(b.cap, SlotOf(b, FromDouble(cs[k].px, tick)))
  }

  /** While the ticks stay central, the book after a message is the fold of the book before it, on both sides. */
  lemma {:induction false} MessageFolds(b: Book, cs: seq<Change>, tick: real, x: Side)
    requires Wf(b) && tick > 0.0 && b.haveRef && Central(b) && CentralChanges(b, cs, tick)
    ensures var r := ApplyChanges(b, cs, tick);
      && Levels(r, x) == Folded(Levels(b, x), cs, x, tick)
      && Central(r) && r.haveRef && r.ref == b.ref && r.rebases == b.rebases
  {
    if cs != [] {
      var before, c := cs[..|cs| - 1], cs[|cs| - 1];
      MessageFolds(b, before, tick, x);
      CentralUpdate(ApplyChanges(b, before, tick), c.side, FromDouble(c.px, tick), c.qty, x);
    }
  }

  /**
   r is what a message makes of b, on plain maps: each level shown is in the message's fold of
   the levels before with the same quantity, and while every tick stays central r is that fold.
   */
  ghost predicate TookMessage(b: Book, r: Book, cs: seq<Change>, tick: real) {
    && Wf(b) && Wf(r) && tick > 0.0
    && r == ApplyChanges(b, cs, tick)
    && (forall x :: SubMap(Levels(r, x), Folded(Levels(b, x), cs, x, tick)))
    && (b.haveRef && Central(b) && CentralChanges(b, cs, tick) ==>
          forall x :: Levels(r, x) == Folded(Levels(b, x), cs, x, tick))
  }

  lemma TakesMessage(b: Book, cs: seq<Change>, tick: real)
    requires Wf(b) && tick > 0.0
    ensures TookMessage(b, ApplyChanges(b, cs, tick), cs, tick)
  {
    hide Levels, Folded, Central, CentralChanges, SubMap;
    forall x ensures SubMap(Levels(ApplyChanges(b, cs, tick), x), Folded(Levels(b, x), cs, x, tick)) {
      MessageShows(b, cs, tick, x);
    }
    if b.haveRef && Central(b) && CentralChanges(b, cs, tick) {
      forall x ensures Levels(ApplyChanges(b, cs, tick), x) == Folded(Levels(b, x), cs, x, tick) {
        MessageFolds(b, cs, tick, x);
      }
    }
  }

  // ---- chunks

  function Concat(cs: seq<seq<Change>>): seq<Change> {
    if cs == [] then [] else Concat(cs[..|cs| - 1]) + cs[|cs| - 1]
  }

  function ApplyChunks(b: Book, chunks: seq<seq<Change>>, tick: real): (r: Book)
    requires Wf(b) && tick > 0.0
    ensures Wf(r) && r.cap == b.cap
  {
    if chunks == [] then b
    else ApplyChanges(ApplyChunks(b, chunks[..|chunks| - 1], tick), chunks[|chunks| - 1], tick)
  }

  /** Applying the chunks one after the other is applying the whole message. */
  lemma {:induction false} ChunksAreInvisible(b: Book, chunks: seq<seq<Change>>, tick: real)
    requires Wf(b) && tick > 0.0
    ensures ApplyChunks(b, chunks, tick) == ApplyChanges(b, Concat(chunks), tick)
  {
    if chunks != [] {
      var before, last := chunks[..|chunks| - 1], chunks[|chunks| - 1];
      ChunksAreInvisible(b, before, tick);
      ChangesInTwo(b, Concat(before), last, tick);
    }
  }

  /** max(1, ceil(n / 128)) */
  function ChunkCount(n: nat): nat {
    if n == 0 then 1 else (n + CHUNK - 1) / CHUNK
  }

  /** As many chunks of 128 as the changes need, and one when there are none. */
  lemma ChunkCountIs(n: nat)
    ensures if n == 0 then ChunkCount(n) == 1 else 128 * (ChunkCount(n) - 1) < n <= 128 * ChunkCount(n)
  {
  }

  function Smaller(a: nat, b: nat): nat {
    if a < b then a else b
  }

  /** The chunks an l2update travels as: all full but the last. */
  function Chunks(cs: seq<Change>): (r: seq<seq<Change>>)
    ensures |r| == ChunkCount(|cs|)
    ensures forall i :: 0 <= i < |r| ==> |r[i]| <= 128
    ensures forall i :: 0 <= i < |r| - 1 ==> |r[i]| == 128
  {
    seq(ChunkCount(|cs|), i requires 0 <= i < ChunkCount(|cs|) => cs[CHUNK * i..Smaller(CHUNK * (i + 1), |cs|)])
  }

  lemma {:induction false} ConcatFirst(cs: seq<Change>, k: nat)
    requires k <= ChunkCount(|cs|)
    ensures Concat(Chunks(cs)[..k]) == cs[..Smaller(CHUNK * k, |cs|)]
  {
    if k > 0 {
      ConcatFirst(cs, k - 1);
      assert Chunks(cs)[..k][..k - 1] == Chunks(cs)[..k - 1];
      assert cs[..CHUNK * (k - 1)] + Chunks(cs)[k - 1] == cs[..Smaller(CHUNK * k, |cs|)];
    }
  }

  /** The chunks joined are the message. */
  lemma ConcatChunks(cs: seq<Change>)
    ensures Concat(Chunks(cs)) == cs
  {
    ConcatFirst(cs, ChunkCount(|cs|));
    assert Chunks(cs)[..ChunkCount(|cs|)] == Chunks(cs);
    assert cs[..|cs|] == cs;
  }

  // ---- a snapshot rebuilds the book around its mid

  /** What the scan of a listed side returns: the best live tick of any list, none when nothing is live. */
  lemma {:induction false} BestListedIsBest(side: Side, ls: seq<PriceLevel>)
    ensures var best := BestListed(side, ls);
      && (best.None? ==> forall i :: 0 <= i < |ls| ==> ls[i].qty <= 0.0)
      && (best.Some? ==>
            && (exists i :: 0 <= i < |ls| && ls[i].qty > 0.0 && ls[i].ticks == best.value)
            && forall i :: 0 <= i < |ls| && ls[i].qty > 0.0 ==>
                 ls[i].ticks == best.value || Better(side, best.value, ls[i].ticks))
  {
    if ls != [] {
      var before, n := ls[..|ls| - 1], |ls| - 1;
      BestListedIsBest(side, before);
      assert forall i :: 0 <= i < n ==> before[i] == ls[i];
      assert ls[n] == ls[|ls| - 1];
    }
  }

  /** The mid lies as far above the bid as below the ask, or one tick closer to the bid. */
  lemma MidIsBetween(bid: int, ask: int)
    requires bid <= ask
    ensures 0 <= (ask - Mid(bid, ask)) - (Mid(bid, ask) - bid) <= 1
  {
  }

  /** A well-formed snapshot side: positive quantities, listed best first. */
  predicate Listed(side: Side, ls: seq<PriceLevel>) {
    && (forall i :: 0 <= i < |ls| ==> ls[i].qty > 0.0)
    && forall i, j :: 0 <= i < j < |ls| ==> ls[i].ticks == ls[j].ticks || Better(side, ls[i].ticks, ls[j].ticks)
  }

  /** The plain map a listed side spells out; a repeated price keeps its last quantity. */
  function ListedMap(ls: seq<PriceLevel>): map<int, real> {
    if ls == [] then map[] else Put(ListedMap(ls[..|ls| - 1]), ls[|ls| - 1].ticks, ls[|ls| - 1].qty)
  }

  lemma {:induction false} BestListedIsFirst(side: Side, ls: seq<PriceLevel>)
    requires Listed(side, ls) && ls != []
    ensures BestListed(side, ls) == Some(ls[0].ticks)
  {
    if |ls| > 1 {
      BestListedIsFirst(side, ls[..|ls| - 1]);
      assert ls[0].ticks == ls[|ls| - 1].ticks || Better(side, ls[0].ticks, ls[|ls| - 1].ticks);
    }
  }

  /** The best bid and ask of a two-sided snapshot fall on central slots of the window at their mid. */
  lemma MidCentersTouches(cap: nat, bid: int, ask: int)
    requires CapacityOk(cap) && bid < ask && ask - bid <= 3 * cap / 4 - 2
    ensures CentralSlot(cap, cap / 2 + bid - Mid(bid, ask)) && CentralSlot(cap, cap / 2 + ask - Mid(bid, ask))
  {
  }

  predicate TouchesCentral(b: Book)
    requires Wf(b)
  {
    forall side :: Top(b, side).Some? ==> CentralSlot(b.cap, SlotOf(b, Top(b, side).value.ticks))
  }

  /** A level no better than a central touch of its side, or the first of its side and central itself. */
  predicate Behind(b: Book, side: Side, l: PriceLevel)
    requires Wf(b)
  {
    && b.haveRef && l.qty > 0.0 && TouchesCentral(b)
    && (Top(b, side).Some? ==>
          l.ticks == Top(b, side).value.ticks || Better(side, Top(b, side).value.ticks, l.ticks))
    && (Top(b, side).None? ==> CentralSlot(b.cap, SlotOf(b, l.ticks)))
  }

  /** Updating a level no better than a central touch, with that touch present, moves no window. */
  lemma UpdateBehindTouch(b: Book, side: Side, t: int, q: real, x: Side)
    requires Wf(b) && Behind(b, side, PriceLevel(t, q))
    ensures var r := Update(b, side, t, q);
      && r.haveRef && r.ref == b.ref && r.rebases == b.rebases && r.cap == b.cap
      && TouchesCentral(r)
      && Levels(r, x) == (if x == side && InWindow(b, t) then Put(Levels(b, x), t, q) else Levels(b, x))
      && (Top(b, side).Some? ==> Top(r, side).Some? && Top(r, side).value.ticks == Top(b, side).value.ticks)
      && (Top(b, side).None? ==> Top(r, side).Some? && Top(r, side).value.ticks == t)
      && Top(r, Opposite(side)) == Top(b, Opposite(side))
  {
    hide Levels, Top, Recenter, HighestLive, LowestLive, AllZero;
    assert Seed(b, t) == b;
    if InWindow(b, t) {
      var b1 := SetSlot(b, side, SlotOf(b, t), q);
      LevelsOfSetSlot(b, side, t, q);
      TopFromLevels(b, b1, Opposite(side));
      TopAfterPut(b, b1, side, t, q);
      forall s ensures Top(b1, s).Some? ==> CentralSlot(b1.cap, SlotOf(b1, Top(b1, s).value.ticks)) {
        assert Top(b, s).Some? ==> CentralSlot(b.cap, SlotOf(b, Top(b, s).value.ticks));
        assert s == side || s == Opposite(side);
      }
      CentralTouchesStay(b1);
      assert x == side || x == Opposite(side);
    }
  }

  lemma CentralTouchesStay(b: Book)
    requires Wf(b) && b.haveRef && TouchesCentral(b)
    ensures Recenter(b) == b
  {
    if HasBid(b) { assert Top(b, Bid).Some?; assert CentralSlot(b.cap, HighestLive(b.bids)); }
    if HasAsk(b) { assert Top(b, Ask).Some?; assert CentralSlot(b.cap, LowestLive(b.asks)); }
  }

  lemma TopAfterPut(b: Book, r: Book, side: Side, t: int, q: real)
    requires Wf(b) && Wf(r) && q > 0.0
    requires Levels(r, side) == Put(Levels(b, side), t, q)
    requires Top(b, side).Some? ==> t == Top(b, side).value.ticks || Better(side, Top(b, side).value.ticks, t)
    ensures Top(r, side).Some?
    ensures Top(r, side).value.ticks == if Top(b, side).Some? then Top(b, side).value.ticks else t
  {
    TopIsBest(b, side);
    TopIsBest(r, side);
    var best := if Top(b, side).Some? then Top(b, side).value.ticks else t;
    var x := Some(PriceLevel(best, Levels(r, side)[best]));
    assert IsBest(Levels(r, side), side, x);
    BestIsUnique(Levels(r, side), side, x, Top(r, side));
  }

  /** The same window with touches still central: what feeding a listed side never disturbs. */
  predicate Settled(b: Book, r: Book)
    requires Wf(b) && Wf(r)
  {
    r.haveRef && r.ref == b.ref && r.cap == b.cap && r.rebases == b.rebases && TouchesCentral(r)
  }

  predicate Feedable(b: Book, side: Side, ls: seq<PriceLevel>)
    requires Wf(b)
  {
    && b.haveRef && TouchesCentral(b) && Levels(b, side) == map[] && Top(b, side).None?
    && Listed(side, ls)
    && (ls != [] ==> CentralSlot(b.cap, SlotOf(b, ls[0].ticks)))
  }

  lemma {:induction false} FeedTouches(b: Book, side: Side, ls: seq<PriceLevel>)
    requires Wf(b) && Feedable(b, side, ls)
    ensures var r := FeedSide(b, side, ls);
      && Settled(b, r)
      && Top(r, Opposite(side)) == Top(b, Opposite(side))
      && (if ls == [] then Top(r, side).None? else Top(r, side).Some? && Top(r, side).value.ticks == ls[0].ticks)
  {
    if ls != [] {
      var before, l := ls[..|ls| - 1], ls[|ls| - 1];
      FeedTouches(b, side, before);
      if before != [] { assert ls[0].ticks == l.ticks || Better(side, ls[0].ticks, l.ticks); }
      UpdateBehindTouch(FeedSide(b, side, before), side, l.ticks, l.qty, side);
    }
  }

  lemma RestrictPut(m: map<int, real>, b: Book, t: int, q: real)
    requires q > 0.0
    ensures Restrict(Put(m, t, q), b) == if InWindow(b, t) then Put(Restrict(m, b), t, q) else Restrict(m, b)
  {
  }

  /** Each listed level comes no better than the touch the ones before it left. */
  lemma {:induction false} LastIsBehind(b: Book, side: Side, ls: seq<PriceLevel>)
    requires Wf(b) && Feedable(b, side, ls) && ls != []
    ensures Behind(FeedSide(b, side, ls[..|ls| - 1]), side, ls[|ls| - 1])
    ensures Settled(b, FeedSide(b, side, ls[..|ls| - 1]))
  {
    var before, l := ls[..|ls| - 1], ls[|ls| - 1];
    FeedTouches(b, side, before);
    if before != [] { assert ls[0].ticks == l.ticks || Better(side, ls[0].ticks, l.ticks); }
  }

  /** The last level of a listed side only puts its own quantity into its own side. */
  lemma {:induction false} FeedLast(b: Book, side: Side, ls: seq<PriceLevel>, x: Side)
    requires Wf(b) && Feedable(b, side, ls) && ls != []
    ensures var had, l := Levels(FeedSide(b, side, ls[..|ls| - 1]), x), ls[|ls| - 1];
      Levels(FeedSide(b, side, ls), x) == if x == side && InWindow(b, l.ticks) then Put(had, l.ticks, l.qty) else had
  {
    LastIsBehind(b, side, ls);
    UpdateBehindTouch(FeedSide(b, side, ls[..|ls| - 1]), side, ls[|ls| - 1].ticks, ls[|ls| - 1].qty, x);
  }

  lemma {:induction false} FeedLevels(b: Book, side: Side, ls: seq<PriceLevel>)
    requires Wf(b) && Feedable(b, side, ls)
    ensures Levels(FeedSide(b, side, ls), side) == Restrict(ListedMap(ls), b)
  {
    if ls != [] {
      FeedLevels(b, side, ls[..|ls| - 1]);
      FeedLast(b, side, ls, side);
      RestrictPut(ListedMap(ls[..|ls| - 1]), b, ls[|ls| - 1].ticks, ls[|ls| - 1].qty);
      hide Levels, FeedSide, Restrict, Put;
    }
  }

  lemma {:induction false} FeedLeavesOtherSide(b: Book, side: Side, ls: seq<PriceLevel>)
    requires Wf(b) && Feedable(b, side, ls)
    ensures Levels(FeedSide(b, side, ls), Opposite(side)) == Levels(b, Opposite(side))
  {
    if ls != [] {
      FeedLeavesOtherSide(b, side, ls[..|ls| - 1]);
      FeedLast(b, side, ls, Opposite(side));
    }
  }

  lemma SameWindow(m: map<int, real>, b: Book, r: Book)
    requires b.ref == r.ref && b.cap == r.cap
    ensures Restrict(m, b) == Restrict(m, r)
  {
    assert forall t :: InWindow(b, t) == InWindow(r, t);
  }

  /**
   A snapshot with both sides listed best first, uncrossed and at most 3*Capacity/4 - 2
   ticks wide, rebuilds the book without a rebase, and the book is the snapshot's map
   restricted to the window centred on the mid.
   */
  lemma SnapshotRebuilds(b: Book, bids: seq<PriceLevel>, asks: seq<PriceLevel>)
    requires Wf(b)
    requires Listed(Bid, bids) && Listed(Ask, asks) && bids != [] && asks != []
    requires bids[0].ticks < asks[0].ticks && asks[0].ticks - bids[0].ticks <= 3 * b.cap / 4 - 2
    ensures var r := ApplySnapshot(b, bids, asks);
      && r.ref == Mid(bids[0].ticks, asks[0].ticks)
      && r.rebases == b.rebases
      && Levels(r, Bid) == Restrict(ListedMap(bids), r)
      && Levels(r, Ask) == Restrict(ListedMap(asks), r)
  {
    var a := Anchored(b, bids, asks);
    AnchoredAtMid(b, bids, asks);
    var m := FeedSide(a, Bid, bids);
    FeedTouches(a, Bid, bids);
    FeedLevels(a, Bid, bids);
    FeedLeavesOtherSide(a, Bid, bids);
    TopIsBest(m, Ask);
    FeedTouches(m, Ask, asks);
    FeedLevels(m, Ask, asks);
    FeedLeavesOtherSide(m, Ask, asks);
    var r := FeedSide(m, Ask, asks);
    SameWindow(ListedMap(bids), a, r);
    SameWindow(ListedMap(asks), m, r);
  }

  lemma AnchoredAtMid(b: Book, bids: seq<PriceLevel>, asks: seq<PriceLevel>)
    requires Wf(b)
    requires Listed(Bid, bids) && Listed(Ask, asks) && bids != [] && asks != []
    requires bids[0].ticks < asks[0].ticks && asks[0].ticks - bids[0].ticks <= 3 * b.cap / 4 - 2
    ensures var a := Anchored(b, bids, asks);
      && a.ref == Mid(bids[0].ticks, asks[0].ticks) && a.cap == b.cap && a.rebases == b.rebases
      && Feedable(a, Bid, bids) && Feedable(a, Ask, asks)
  {
    BestListedIsFirst(Bid, bids);
    BestListedIsFirst(Ask, asks);
    MidCentersTouches(b.cap, bids[0].ticks, asks[0].ticks);
    var a := Anchored(b, bids, asks);
    LevelsOfEmptySlots(a, Bid);
    LevelsOfEmptySlots(a, Ask);
    TopIsBest(a, Bid);
    TopIsBest(a, Ask);
    assert forall side :: Top(a, side).None? by {
      forall side ensures Top(a, side).None? { assert side == Bid || side == Ask; }
    }
  }
}
