/**
 `ImbalanceStrategy`: smoothed size imbalance of the book, one position at a time,
 closed only by take-profit or stop-loss.
 */
module ImbalanceStrategy {
  import opened Types
  import BookSpec
  import opened BookProperties
  import opened OrderSizer
  import opened ExecutionEngine
  import opened PnlTracker
  import BB = BoundedBook
  import Tracker = PnlTracker

  const MAX_DEPTH: nat := 32
  const MAX_ROLLING: nat := 32

  /** `StrategyParams` */
  datatype Params = Params(
    depthLevels: nat, window: nat, entryImbalance: real, takeProfitBps: real, stopLossBps: real,
    maxSpreadBps: real, tradeFraction: real, cooldownS: real, allowShort: bool)

  /** Both sizes fit the fixed buffers. */
  predicate SizesOk(p: Params) {
    1 <= p.depthLevels <= MAX_DEPTH && 1 <= p.window <= MAX_ROLLING
  }

  function Clamp(n: nat, max: nat): nat
    requires max > 0
  {
    if n == 0 then 1 else if n > max then max else n
  }

  /** The parameters as the constructor keeps them: sizes out of range are pulled in. */
  function Clamped(p: Params): (r: Params)
    ensures SizesOk(r) && (SizesOk(p) ==> r == p)
  {
    p.(window := Clamp(p.window, MAX_ROLLING), depthLevels := Clamp(p.depthLevels, MAX_DEPTH))
  }

  /** No size in range is nearer to what was asked for than the one kept. */
  lemma ClampedIsNearest(p: Params, n: nat)
    ensures 1 <= n <= MAX_ROLLING ==> Gap(Clamped(p).window, p.window) <= Gap(n, p.window)
    ensures 1 <= n <= MAX_DEPTH ==> Gap(Clamped(p).depthLevels, p.depthLevels) <= Gap(n, p.depthLevels)
    ensures Clamped(p) == p.(window := Clamped(p).window, depthLevels := Clamped(p).depthLevels)
  {
  }

  function Gap(a: nat, b: nat): nat {
    if a < b then b - a else a - b
  }

  /** The configuration checks on the strategy block. */
  predicate ParamsOk(p: Params) {
    && SizesOk(p)
    && 0.0 <= p.entryImbalance <= 1.0
    && p.takeProfitBps > 0.0 && p.stopLossBps > 0.0
    && 0.0 < p.tradeFraction <= 1.0
  }

  /** The rolling ring of imbalance samples. */
  datatype Ring = Ring(slots: seq<real>, head: nat, count: nat)

  datatype Strategy = Strategy(ring: Ring, pnl: Pnl, lastTradeNs: int, skipNext: bool)

  // ---- the smoothing ring

  function Push(r: Ring, window: nat, x: real): Ring
    requires 1 <= window <= |r.slots| && r.head < window
  {
    Ring(r.slots[r.head := x], (r.head + 1) % window, if r.count < window then r.count + 1 else r.count)
  }

  function Reset(r: Ring): Ring {
    r.(head := 0, count := 0)
  }

  function SumFirst(s: seq<real>, n: nat): real
    requires n <= |s|
  {
    if n == 0 then 0.0 else SumFirst(s, n - 1) + s[n - 1]
  }

  /** The smoothed signal: the mean of the occupied slots. */
  function Mean(r: Ring): real
    requires 0 < r.count <= |r.slots|
  {
    SumFirst(r.slots, r.count) / r.count as real
  }

  /** The last k elements. */
  function Last(xs: seq<real>, k: nat): seq<real>
    requires k <= |xs|
  {
    xs[|xs| - k..]
  }

  function Least(a: nat, b: nat): nat {
    if a < b then a else b
  }

  /** The ring after the samples xs since a reset: head and count in range, the last samples in place. */
  predicate RingHolds(r: Ring, window: nat, xs: seq<real>) {
    && 1 <= window <= |r.slots| == MAX_ROLLING
    && r.count == Least(window, |xs|)
    && r.head < window
    && (r.count < window ==> r.head == r.count && r.slots[..r.count] == xs)
    && (r.count == window ==>
          r.slots[r.head..window] + r.slots[..r.head] == Last(xs, window))
  }

  lemma NextHead(h: nat, window: nat)
    requires h < window
    ensures (h + 1) % window == if h + 1 == window then 0 else h + 1
  {
  }

  lemma FillingPush(r: Ring, window: nat, xs: seq<real>, x: real)
    requires RingHolds(r, window, xs) && r.count < window
    ensures RingHolds(Push(r, window, x), window, xs + [x])
  {
    var p, ys := Push(r, window, x), xs + [x];
    NextHead(r.head, window);
    assert p.slots[..r.head + 1] == ys;
    if p.count == window {
      assert p.head == 0 && Last(ys, window) == ys;
      assert p.slots[0..window] + p.slots[..0] == p.slots[..window];
    }
  }

  lemma WrappingPush(r: Ring, window: nat, xs: seq<real>, x: real)
    requires RingHolds(r, window, xs) && r.count == window
    ensures RingHolds(Push(r, window, x), window, xs + [x])
  {
    var p, h := Push(r, window, x), r.head;
    NextHead(h, window);
    var was := r.slots[h..window] + r.slots[..h];
    assert Last(xs + [x], window) == was[1..] + [x];
    assert was[1..] == r.slots[h + 1..window] + r.slots[..h];
    assert p.slots[h + 1..window] == r.slots[h + 1..window];
    assert p.slots[..h + 1] == r.slots[..h] + [x];
    assert p.slots[h + 1..window] + p.slots[..h + 1] == was[1..] + [x];
    if h + 1 == window {
      assert p.slots[0..window] + p.slots[..0] == p.slots[window..window] + p.slots[..window];
    }
  }

  lemma PushHolds(r: Ring, window: nat, xs: seq<real>, x: real)
    requires RingHolds(r, window, xs)
    ensures RingHolds(Push(r, window, x), window, xs + [x])
  {
    if r.count < window { FillingPush(r, window, xs, x); } else { WrappingPush(r, window, xs, x); }
  }

  lemma {:induction false} SumAppend(a: seq<real>, b: seq<real>, n: nat)
    requires n <= |b|
    ensures SumFirst(a + b, |a| + n) == SumFirst(a, |a|) + SumFirst(b, n)
  {
    if n > 0 {
      SumAppend(a, b, n - 1);
      assert (a + b)[|a| + n - 1] == b[n - 1];
    } else {
      SumPrefix(a + b, a, |a|);
    }
  }

  lemma {:induction false} SumPrefix(s: seq<real>, t: seq<real>, n: nat)
    requires n <= |s| && n <= |t| && s[..n] == t[..n]
    ensures SumFirst(s, n) == SumFirst(t, n)
  {
    if n > 0 {
      assert s[n - 1] == s[..n][n - 1] == t[n - 1];
      assert s[..n - 1] == s[..n][..n - 1] == t[..n - 1];
      SumPrefix(s, t, n - 1);
    }
  }

  /** The smoothed signal is the mean of exactly the last min(window, k) of the k samples. */
  lemma MeanOfLast(r: Ring, window: nat, xs: seq<real>)
    requires RingHolds(r, window, xs) && xs != []
    ensures r.count == Least(window, |xs|) > 0
    ensures Mean(r) == SumFirst(Last(xs, r.count), r.count) / r.count as real
  {
    if r.count < window {
      SumPrefix(r.slots, xs, r.count);
      assert Last(xs, r.count) == xs;
    } else {
      var h := r.head;
      var late, early := r.slots[h..window], r.slots[..h];
      SumAppend(late, early, h);
      SumAppend(early, late, window - h);
      SumPrefix(r.slots, early + late, window);
      assert late + early == Last(xs, window);
    }
  }

  predicate AllUnit(xs: seq<real>) {
    forall i :: 0 <= i < |xs| ==> -1.0 <= xs[i] <= 1.0
  }

  lemma {:induction false} SumUnit(s: seq<real>, n: nat)
    requires n <= |s| && AllUnit(s)
    ensures -(n as real) <= SumFirst(s, n) <= n as real
  {
    if n > 0 { SumUnit(s, n - 1); }
  }

  /** It always lies in [-1, 1]. */
  lemma MeanInUnit(r: Ring, window: nat, xs: seq<real>)
    requires RingHolds(r, window, xs) && xs != [] && AllUnit(xs)
    ensures -1.0 <= Mean(r) <= 1.0
  {
    MeanOfLast(r, window, xs);
    var ys := Last(xs, r.count);
    assert AllUnit(ys);
    SumUnit(ys, r.count);
    QuotientInUnit(SumFirst(ys, r.count), r.count as real);
  }

  lemma QuotientInUnit(a: real, n: real)
    requires n > 0.0 && -n <= a <= n
    ensures -1.0 <= a / n <= 1.0
  {
    var q := a / n;
    assert q * n == a;
    CancelMul(-1.0, q, n);
    CancelMul(q, 1.0, n);
  }

  // ---- reading the book

  function SumQty(ls: seq<PriceLevel>): real {
    if ls == [] then 0.0 else SumQty(ls[..|ls| - 1]) + ls[|ls| - 1].qty
  }

  lemma {:induction false} SumQtyPositive(ls: seq<PriceLevel>)
    requires AllLive(ls) && ls != []
    ensures SumQty(ls) > 0.0
  {
    if |ls| > 1 { SumQtyPositive(ls[..|ls| - 1]); }
  }

  /** Every live level of the book has a positive price. */
  predicate PositiveTicks(b: BookSpec.Book)
    requires BookSpec.Wf(b)
  {
    forall side, t :: t in BookSpec.Levels(b, side) ==> t > 0
  }

  /** Both sides are present and the ask is above the bid. */
  predicate TwoSided(b: BookSpec.Book)
    requires BookSpec.Wf(b)
  {
    && Top(b, Bid).Some? && Top(b, Ask).Some?
    && Top(b, Bid).value.ticks < Top(b, Ask).value.ticks
  }

  /** Size over the top levels of both sides. */
  function TotalSize(b: BookSpec.Book, depth: nat): real
    requires BookSpec.Wf(b)
  {
    SumQty(Depth(b, Bid, depth)) + SumQty(Depth(b, Ask, depth))
  }

  /** Whether an update takes a sample: both sides, uncrossed, and some size. */
  predicate Samples(b: BookSpec.Book, depth: nat)
    requires BookSpec.Wf(b)
  {
    TwoSided(b) && TotalSize(b, depth) > 0.0
  }

  /** (bid size - ask size) / (bid size + ask size) over the top levels. */
  function Imbalance(b: BookSpec.Book, depth: nat): real
    requires BookSpec.Wf(b) && Samples(b, depth)
  {
    (SumQty(Depth(b, Bid, depth)) - SumQty(Depth(b, Ask, depth))) / TotalSize(b, depth)
  }

  /** A two-sided book always has size, and its imbalance lies in [-1, 1]. */
  lemma ImbalanceInUnit(b: BookSpec.Book, depth: nat)
    requires BookSpec.Wf(b) && depth > 0
    ensures Samples(b, depth) <==> TwoSided(b)
    ensures Samples(b, depth) ==> -1.0 <= Imbalance(b, depth) <= 1.0
  {
    if TwoSided(b) {
      SidesHaveSize(b, depth);
      var bidSz, askSz := SumQty(Depth(b, Bid, depth)), SumQty(Depth(b, Ask, depth));
      QuotientInUnit(bidSz - askSz, bidSz + askSz);
    }
  }

  lemma {:induction false} SumIsTotal(ls: seq<PriceLevel>)
    ensures SumQty(ls) == Total(ls, |ls|)
  {
    TotalOfPrefix(ls, |ls|);
    assert ls[..|ls|] == ls;
  }

  lemma {:induction false} TotalOfPrefix(ls: seq<PriceLevel>, k: nat)
    requires k <= |ls|
    ensures SumQty(ls[..k]) == Total(ls, k)
  {
    if k > 0 {
      TotalOfPrefix(ls, k - 1);
      assert ls[..k][..k - 1] == ls[..k - 1];
    }
  }

  /** Size of the best levels of a side. */
  function SideSize(b: BookSpec.Book, side: Side, depth: nat): real
    requires BookSpec.Wf(b)
  {
    Total(Depth(b, side, depth), |Depth(b, side, depth)|)
  }

  /**
   The imbalance is 1 less twice the share the asks have of the size shown: positive exactly
   when the bids hold more, negative exactly when the asks do.
   */
  lemma ImbalanceIsBidHeavy(b: BookSpec.Book, depth: nat)
    requires BookSpec.Wf(b) && Samples(b, depth)
    ensures var i, bid, ask := Imbalance(b, depth), SideSize(b, Bid, depth), SideSize(b, Ask, depth);
      && bid + ask > 0.0 && i == 1.0 - 2.0 * (ask / (bid + ask))
      && (i > 0.0 <==> bid > ask) && (i < 0.0 <==> bid < ask)
  {
    SumIsTotal(Depth(b, Bid, depth));
    SumIsTotal(Depth(b, Ask, depth));
    ShareOf(SideSize(b, Bid, depth), SideSize(b, Ask, depth));
    hide Depth, SumQty, Total;
  }

  lemma ShareOf(bid: real, ask: real)
    requires bid + ask > 0.0
    ensures var i := (bid - ask) / (bid + ask);
      i == 1.0 - 2.0 * (ask / (bid + ask)) && (i > 0.0 <==> bid > ask) && (i < 0.0 <==> bid < ask)
  {
    var n := bid + ask;
    var i, share := (bid - ask) / n, ask / n;
    assert i * n == bid - ask && share * n == ask;
    assert (1.0 - 2.0 * share) * n == n - 2.0 * (share * n);
    CancelMul(i, 1.0 - 2.0 * share, n);
    CancelMul(1.0 - 2.0 * share, i, n);
    if i > 0.0 { ScaledBy(i, 0.0, n); } else { ScaledBy(0.0, i, n); }
  }

  /** An update is sampled exactly when both sides have a level and every bid is below every ask. */
  lemma SampledWhenUncrossed(b: BookSpec.Book, depth: nat)
    requires BookSpec.Wf(b) && depth > 0
    ensures Samples(b, depth) <==>
      && BookSpec.Levels(b, Bid) != map[] && BookSpec.Levels(b, Ask) != map[]
      && forall bid, ask :: bid in BookSpec.Levels(b, Bid) && ask in BookSpec.Levels(b, Ask) ==> bid < ask
  {
    ImbalanceInUnit(b, depth);
    TopIsBest(b, Bid);
    TopIsBest(b, Ask);
    hide Top, Samples;
  }

  lemma SidesHaveSize(b: BookSpec.Book, depth: nat)
    requires BookSpec.Wf(b) && TwoSided(b) && depth > 0
    ensures forall side :: Depth(b, side, depth) != [] && SumQty(Depth(b, side, depth)) > 0.0
  {
    forall side ensures Depth(b, side, depth) != [] && SumQty(Depth(b, side, depth)) > 0.0 {
      assert side == Bid || side == Ask;
      LadderHead(b, side);
      DepthIsLive(b, side, depth);
      SumQtyPositive(Depth(b, side, depth));
    }
  }

  lemma TouchIsPositive(b: BookSpec.Book, side: Side)
    requires BookSpec.Wf(b) && PositiveTicks(b) && Top(b, side).Some?
    ensures Top(b, side).value.ticks > 0
  {
    TopIsBest(b, side);
  }

  // ---- the decision

  /** What the strategy wants: nothing, or an order of a side for a target quantity. */
  datatype Intent = Nothing | Want(side: Side, target: real)

  /** Whether a move of this size closes the position. */
  predicate Exits(p: Params, moveBps: real) {
    moveBps >= p.takeProfitBps || moveBps <= -p.stopLossBps
  }

  /** A held position always has a positive entry to measure moves against. */
  predicate EntryOk(s: Pnl) {
    s.position != 0.0 ==> s.avgEntry > 0.0
  }

  /** While holding: close the whole position on a take-profit or stop-loss move. */
  function HoldingIntent(p: Params, s: Pnl, bestBid: real, bestAsk: real): Intent
    requires s.position != 0.0 && s.avgEntry > 0.0
  {
    if s.position > 0.0 then
      if Exits(p, (bestBid - s.avgEntry) / s.avgEntry * 10000.0) then Want(Ask, s.position) else Nothing
    else
      if Exits(p, (s.avgEntry - bestAsk) / s.avgEntry * 10000.0) then Want(Bid, -s.position) else Nothing
  }

  /** While flat: open on a strong smoothed imbalance, a tight spread and an elapsed cooldown. */
  function OpeningIntent(p: Params, s: Strategy, bestBid: real, bestAsk: real, smoothed: real, now: int): Intent
    requires 0.0 < bestBid < bestAsk
  {
    var mid := (bestBid + bestAsk) * 0.5;
    var spreadBps := (bestAsk - bestBid) / mid * 10000.0;
    if (now - s.lastTradeNs) as real / 1000000000.0 < p.cooldownS then Nothing
    else if spreadBps > p.maxSpreadBps then Nothing
    else if s.pnl.cash <= 0.0 then Nothing
    else
      var target := p.tradeFraction * s.pnl.cash / mid;
      if smoothed > p.entryImbalance then Want(Bid, target)
      else if p.allowShort && smoothed < -p.entryImbalance then Want(Ask, target)
      else Nothing
  }

  /** The state of the ring and the parameters agree. */
  predicate RingOk(p: Params, r: Ring) {
    && SizesOk(p) && |r.slots| == MAX_ROLLING
    && r.head < p.window && r.count <= p.window
  }

  /** onMarketUpdate up to the sizing: the state with the new sample, and what is wanted. */
  function Decide(p: Params, tick: real, s: Strategy, b: BookSpec.Book, now: int): (r: (Strategy, Intent))
    requires RingOk(p, s.ring) && EntryOk(s.pnl) && tick > 0.0
    requires BookSpec.Wf(b) && PositiveTicks(b)
    ensures RingOk(p, r.0.ring) && r.0.pnl == s.pnl && r.0.lastTradeNs == s.lastTradeNs
  {
    if !Samples(b, p.depthLevels) then (s, Nothing)
    else
      var s1 := s.(ring := Push(s.ring, p.window, Imbalance(b, p.depthLevels)));
      if s.skipNext then (s1.(skipNext := false), Nothing)
      else
        var bestBid := ToDouble(Top(b, Bid).value.ticks, tick);
        var bestAsk := ToDouble(Top(b, Ask).value.ticks, tick);
        TouchIsPositive(b, Bid);
        ToDoubleMono(Top(b, Ask).value.ticks, Top(b, Bid).value.ticks, tick);
        ToDoubleMono(Top(b, Bid).value.ticks, 0, tick);
        (s1, if s.pnl.position != 0.0 then HoldingIntent(p, s.pnl, bestBid, bestAsk)
             else OpeningIntent(p, s1, bestBid, bestAsk, Mean(s1.ring), now))
  }

  /** The signal of a market update: the wanted order as far as the book can size it. */
  function OnMarket(p: Params, tick: real, s: Strategy, b: BookSpec.Book, now: int): (r: (Strategy, Signal))
    requires RingOk(p, s.ring) && EntryOk(s.pnl) && tick > 0.0
    requires BookSpec.Wf(b) && PositiveTicks(b)
    ensures RingOk(p, r.0.ring) && r.0.pnl == s.pnl
  {
    var (s1, i) := Decide(p, tick, s, b, now);
    var sig := if i.Nothing? then NoSignal else ComputeOrder(b, i.side, i.target);
    (if sig.Order? then s1.(lastTradeNs := now) else s1, sig)
  }

  function OnReconnect(s: Strategy): Strategy {
    s.(ring := Reset(s.ring), skipNext := true)
  }

  lemma ScaledBy(a: real, b: real, m: real)
    requires m > 0.0
    ensures a >= b <==> a * m >= b * m
  {
    if a >= b { assert (a - b) * m >= 0.0; } else { assert (b - a) * m > 0.0; }
  }

  /** A move from the entry in bps, weighted by what the position cost. */
  lemma MoveIsProfit(pos: real, entry: real, gain: real)
    requires entry > 0.0
    ensures (gain / entry * 10000.0) * (pos * entry) == pos * gain * 10000.0
  {
    var q := gain / entry;
    assert q * entry == gain;
    assert (q * 10000.0) * (pos * entry) == pos * (q * entry) * 10000.0;
  }

  /**
   While holding, the strategy closes the whole position exactly when its unrealized profit
   at the touch it would trade against has reached the take-profit or stop-loss fraction of its cost.
   */
  lemma ExitsOnProfitOrLoss(p: Params, s: Pnl, bestBid: real, bestAsk: real)
    requires s.position != 0.0 && s.avgEntry > 0.0
    ensures var i, cost := HoldingIntent(p, s, bestBid, bestAsk), Abs(s.position) * s.avgEntry;
      var profit := Unrealized(s, if s.position > 0.0 then bestBid else bestAsk) * 10000.0;
      && (i.Want? <==> profit >= p.takeProfitBps * cost || profit <= -p.stopLossBps * cost)
      && (i.Want? ==> i.target == Abs(s.position) && i.side == if s.position > 0.0 then Ask else Bid)
  {
    var size := Abs(s.position);
    var gain := if s.position > 0.0 then bestBid - s.avgEntry else s.avgEntry - bestAsk;
    var cost := size * s.avgEntry;
    assert cost > 0.0;
    MoveIsProfit(size, s.avgEntry, gain);
    var move := gain / s.avgEntry * 10000.0;
    ScaledBy(move, p.takeProfitBps, cost);
    ScaledBy(-p.stopLossBps, move, cost);
    ProfitOf(s, if s.position > 0.0 then bestBid else bestAsk, size, gain);
  }

  lemma ProfitOf(s: Pnl, mark: real, size: real, gain: real)
    requires s.position != 0.0 && size == Abs(s.position)
    requires gain == if s.position > 0.0 then mark - s.avgEntry else s.avgEntry - mark
    ensures Unrealized(s, mark) == size * gain
  {
    if s.position < 0.0 { assert s.position * (mark - s.avgEntry) == (-s.position) * (s.avgEntry - mark); }
  }

  /** The cooldown has passed between two times. */
  predicate Rested(p: Params, since: int, now: int) {
    (now - since) as real >= p.cooldownS * 1000000000.0
  }

  /** The spread is at most its limit, as a fraction of the mid. */
  predicate Tight(p: Params, bestBid: real, bestAsk: real) {
    (bestAsk - bestBid) * 10000.0 <= p.maxSpreadBps * ((bestBid + bestAsk) * 0.5)
  }

  /** Nothing but the imbalance stands in the way of an opening order. */
  predicate MayOpen(p: Params, s: Strategy, bestBid: real, bestAsk: real, now: int) {
    Rested(p, s.lastTradeNs, now) && Tight(p, bestBid, bestAsk) && s.pnl.cash > 0.0
  }

  /** Beyond the entry threshold to the side of an order of this side, shorts only when allowed. */
  predicate Leans(p: Params, side: Side, smoothed: real) {
    if side == Bid then smoothed > p.entryImbalance else p.allowShort && smoothed < -p.entryImbalance
  }

  lemma RestedIs(p: Params, since: int, now: int)
    ensures Rested(p, since, now) <==> (now - since) as real / 1000000000.0 >= p.cooldownS
  {
    var secs := (now - since) as real / 1000000000.0;
    assert secs * 1000000000.0 == (now - since) as real;
  }

  lemma TightIs(p: Params, bestBid: real, bestAsk: real)
    requires 0.0 < bestBid < bestAsk
    ensures Tight(p, bestBid, bestAsk) <==>
      (bestAsk - bestBid) / ((bestBid + bestAsk) * 0.5) * 10000.0 <= p.maxSpreadBps
  {
    var mid := (bestBid + bestAsk) * 0.5;
    var q := (bestAsk - bestBid) / mid;
    assert q * mid == bestAsk - bestBid;
    ScaledBy(p.maxSpreadBps, q * 10000.0, mid);
    assert (q * 10000.0) * mid == (bestAsk - bestBid) * 10000.0;
  }

  /**
   While flat, an order is wanted on a side exactly when the smoothed imbalance leans to it
   beyond the threshold, the cooldown has passed, the spread is tight and there is cash; it
   then spends the trade fraction of the cash at the mid.
   */
  lemma OpensWithTheImbalance(p: Params, s: Strategy, bestBid: real, bestAsk: real, smoothed: real, now: int)
    requires 0.0 < bestBid < bestAsk && p.entryImbalance >= 0.0
    ensures var i := OpeningIntent(p, s, bestBid, bestAsk, smoothed, now);
      && (forall side :: i.Want? && i.side == side <==> MayOpen(p, s, bestBid, bestAsk, now) && Leans(p, side, smoothed))
      && (i.Want? ==> i.target * ((bestBid + bestAsk) * 0.5) == p.tradeFraction * s.pnl.cash)
  {
    RestedIs(p, s.lastTradeNs, now);
    TightIs(p, bestBid, bestAsk);
    var mid := (bestBid + bestAsk) * 0.5;
    assert (p.tradeFraction * s.pnl.cash / mid) * mid == p.tradeFraction * s.pnl.cash;
    hide Rested, Tight;
    forall side ensures
      OpeningIntent(p, s, bestBid, bestAsk, smoothed, now).Want? &&
      OpeningIntent(p, s, bestBid, bestAsk, smoothed, now).side == side <==>
      MayOpen(p, s, bestBid, bestAsk, now) && Leans(p, side, smoothed)
    {
      assert side == Bid || side == Ask;
    }
  }

  /** The touches as prices. */
  function Prices(tick: real, b: BookSpec.Book): (real, real)
    requires BookSpec.Wf(b) && TwoSided(b)
  {
    (ToDouble(Top(b, Bid).value.ticks, tick), ToDouble(Top(b, Ask).value.ticks, tick))
  }

  lemma PricesAreOrdered(tick: real, b: BookSpec.Book)
    requires BookSpec.Wf(b) && TwoSided(b) && PositiveTicks(b) && tick > 0.0
    ensures 0.0 < Prices(tick, b).0 < Prices(tick, b).1
  {
    TouchIsPositive(b, Bid);
    ToDoubleMono(Top(b, Ask).value.ticks, Top(b, Bid).value.ticks, tick);
    ToDoubleMono(Top(b, Bid).value.ticks, 0, tick);
  }

  /** Whether a flat strategy sends an order of this side on this book. */
  predicate Opens(p: Params, tick: real, s: Strategy, b: BookSpec.Book, side: Side, smoothed: real, now: int)
    requires BookSpec.Wf(b)
  {
    && Samples(b, p.depthLevels) && !s.skipNext
    && MayOpen(p, s, Prices(tick, b).0, Prices(tick, b).1, now)
    && Leans(p, side, smoothed)
  }

  /** A flat strategy sends an order of a side exactly when it opens on it: the book can always size it. */
  lemma FlatSendsIffOpens(p: Params, tick: real, s: Strategy, b: BookSpec.Book, side: Side, now: int)
    requires ParamsOk(p) && RingOk(p, s.ring) && EntryOk(s.pnl) && tick > 0.0 && s.pnl.position == 0.0
    requires BookSpec.Wf(b) && PositiveTicks(b)
    ensures var (s1, sig) := OnMarket(p, tick, s, b, now);
      sig.Order? && sig.side == side <==>
        Samples(b, p.depthLevels) && 0 < s1.ring.count <= |s1.ring.slots| && Opens(p, tick, s, b, side, Mean(s1.ring), now)
  {
    if Samples(b, p.depthLevels) && !s.skipNext {
      var s1, px := s.(ring := Push(s.ring, p.window, Imbalance(b, p.depthLevels))), Prices(tick, b);
      PricesAreOrdered(tick, b);
      DecidesToOpen(p, tick, s, b, now);
      OpensWithTheImbalance(p, s1, px.0, px.1, Mean(s1.ring), now);
      var i := OpeningIntent(p, s1, px.0, px.1, Mean(s1.ring), now);
      if i.Want? {
        TargetIsPositive(i.target, (px.0 + px.1) * 0.5, p.tradeFraction, s.pnl.cash);
        WantedIsSized(b, i.side, i.target);
      }
      hide Decide, OpeningIntent, Leans, Rested, Tight, ComputeOrder, Imbalance, Mean, Samples, Prices;
    } else {
      assert Decide(p, tick, s, b, now).1.Nothing?;
      hide Imbalance, Decide, MayOpen, Leans, Samples, Mean;
    }
  }

  /** A flat strategy that gets a sample and is not skipping takes its opening decision on it. */
  lemma DecidesToOpen(p: Params, tick: real, s: Strategy, b: BookSpec.Book, now: int)
    requires RingOk(p, s.ring) && EntryOk(s.pnl) && tick > 0.0 && s.pnl.position == 0.0 && !s.skipNext
    requires BookSpec.Wf(b) && PositiveTicks(b) && Samples(b, p.depthLevels)
    ensures 0.0 < Prices(tick, b).0 < Prices(tick, b).1
    ensures var s1 := s.(ring := Push(s.ring, p.window, Imbalance(b, p.depthLevels)));
      0 < s1.ring.count <= |s1.ring.slots| &&
      Decide(p, tick, s, b, now) ==
        (s1, OpeningIntent(p, s1, Prices(tick, b).0, Prices(tick, b).1, Mean(s1.ring), now))
  {
    PricesAreOrdered(tick, b);
    hide Imbalance, OpeningIntent, Mean;
  }

  lemma TargetIsPositive(target: real, mid: real, fraction: real, cash: real)
    requires target * mid == fraction * cash && mid > 0.0 && fraction > 0.0 && cash > 0.0
    ensures target > 0.0
  {
    assert fraction * cash > 0.0;
    CancelMul(0.0, target, mid);
  }

  lemma WantedIsSized(b: BookSpec.Book, side: Side, target: real)
    requires BookSpec.Wf(b) && TwoSided(b) && target > 0.0
    ensures ComputeOrder(b, side, target).Order? && ComputeOrder(b, side, target).side == side
  {
    SidesHaveSize(b, MAX_BOOK_WALK);
    DepthIsLive(b, Opposite(side), MAX_BOOK_WALK);
    SizingSucceeds(Depth(b, Opposite(side), MAX_BOOK_WALK), side, target);
  }

  /** What an order of the strategy is for: it closes the held position, or opens one from flat. */
  lemma SignalPurpose(p: Params, tick: real, s: Strategy, b: BookSpec.Book, now: int)
    requires RingOk(p, s.ring) && EntryOk(s.pnl) && tick > 0.0
    requires BookSpec.Wf(b) && PositiveTicks(b)
    ensures var i, sig := Decide(p, tick, s, b, now).1, OnMarket(p, tick, s, b, now).1;
      sig.Order? ==>
        && !s.skipNext && TwoSided(b)
        && i.Want? && sig == ComputeOrder(b, i.side, i.target)
        && (s.pnl.position > 0.0 ==> i == Want(Ask, s.pnl.position))
        && (s.pnl.position < 0.0 ==> i == Want(Bid, -s.pnl.position))
        && (s.pnl.position == 0.0 ==> (i.side == Ask ==> p.allowShort) && Rested(p, s.lastTradeNs, now))
  {
    RestedIs(p, s.lastTradeNs, now);
    hide Rested;
  }

  /** The clock and the skip flag after a market update. */
  lemma MarketMoves(p: Params, tick: real, s: Strategy, b: BookSpec.Book, now: int)
    requires RingOk(p, s.ring) && EntryOk(s.pnl) && tick > 0.0
    requires BookSpec.Wf(b) && PositiveTicks(b)
    ensures var (s1, sig) := OnMarket(p, tick, s, b, now);
      && s1.lastTradeNs == (if sig.Order? then now else s.lastTradeNs)
      && s1.skipNext == (s.skipNext && !Samples(b, p.depthLevels))
  {
    hide HoldingIntent, OpeningIntent, Imbalance, ComputeOrder;
  }

  // ---- samples over a run

  /** What the ring sees: a sample at a market update, or a reset at a reconnect. */
  datatype RingOp = Sample(x: real) | Restart

  function RunRing(window: nat, ops: seq<RingOp>): (r: Ring)
    requires 1 <= window <= MAX_ROLLING
    ensures |r.slots| == MAX_ROLLING && r.head < window
  {
    if ops == [] then Ring(seq(MAX_ROLLING, _ => 0.0), 0, 0)
    else
      var before := RunRing(window, ops[..|ops| - 1]);
      match ops[|ops| - 1]
      case Sample(x) => Push(before, window, x)
      case Restart => Reset(before)
  }

  /** The samples since the last reconnect. */
  function SinceRestart(ops: seq<RingOp>): seq<real> {
    if ops == [] || ops[|ops| - 1].Restart? then []
    else SinceRestart(ops[..|ops| - 1]) + [ops[|ops| - 1].x]
  }

  /** On every run the ring holds exactly the last samples since the reconnect, across wraps and resets. */
  lemma {:induction false} RingHoldsRun(window: nat, ops: seq<RingOp>)
    requires 1 <= window <= MAX_ROLLING
    ensures RingHolds(RunRing(window, ops), window, SinceRestart(ops))
  {
    if ops != [] {
      var before, op := ops[..|ops| - 1], ops[|ops| - 1];
      RingHoldsRun(window, before);
      match op
      case Sample(x) => PushHolds(RunRing(window, before), window, SinceRestart(before), x);
      case Restart =>
    }
  }

  /** So the smoothed signal of a run is the mean of the last min(window, k) samples, within [-1, 1]. */
  lemma SmoothedSignal(window: nat, ops: seq<RingOp>)
    requires 1 <= window <= MAX_ROLLING
    requires AllUnit(SinceRestart(ops))
    ensures var r, xs := RunRing(window, ops), SinceRestart(ops);
      && r.count == Least(window, |xs|)
      && (xs != [] ==> Mean(r) == SumFirst(Last(xs, r.count), r.count) / r.count as real && -1.0 <= Mean(r) <= 1.0)
  {
    RingHoldsRun(window, ops);
    if SinceRestart(ops) != [] {
      MeanOfLast(RunRing(window, ops), window, SinceRestart(ops));
      MeanInUnit(RunRing(window, ops), window, SinceRestart(ops));
    }
  }

  // ---- the class

  class ImbalanceStrategy {
    const params: Params
    const symbol: nat
    const tickSize: real
    const rolling: array<real>
    const pnl: Tracker.PnlTracker
    var rollingCount: nat
    var rollingHead: nat
    var lastTradeNs: int
    var skipNextSignal: bool

    ghost predicate Valid()
      reads this, rolling, pnl, pnl.states
    {
      && symbol < MAX_SYMBOLS && tickSize > 0.0
      && rolling.Length == MAX_ROLLING
      && pnl.Valid()
      && RingOk(params, Value().ring)
    }

    ghost function Value(): Strategy
      requires symbol < pnl.states.Length
      reads this, rolling, pnl, pnl.states
    {
      Strategy(Ring(rolling[..], rollingHead, rollingCount), pnl.states[symbol], lastTradeNs, skipNextSignal)
    }

    /** Construction, setSymbol and setInitialCash. */
    constructor (params: Params, symbol: nat, tickSize: real, cash: real)
      requires symbol < MAX_SYMBOLS && tickSize > 0.0
      ensures Valid() && fresh(rolling) && fresh(pnl) && fresh(pnl.states)
      ensures this.params == Clamped(params) && this.symbol == symbol && this.tickSize == tickSize
      ensures Value() == Strategy(Ring(seq(MAX_ROLLING, _ => 0.0), 0, 0), Seeded(cash), 0, false)
    {
      var kept := params;
      if kept.window == 0 { kept := kept.(window := 1); }
      if kept.window > MAX_ROLLING { kept := kept.(window := MAX_ROLLING); }
      if kept.depthLevels == 0 { kept := kept.(depthLevels := 1); }
      if kept.depthLevels > MAX_DEPTH { kept := kept.(depthLevels := MAX_DEPTH); }
      this.params, this.symbol, this.tickSize := kept, symbol, tickSize;
      rolling := new real[MAX_ROLLING](_ => 0.0);
      var tracker := new Tracker.PnlTracker();
      tracker.SeedCash(symbol, cash);
      pnl := tracker;
      rollingCount, rollingHead := 0, 0;
      lastTradeNs, skipNextSignal := 0, false;
      new;
      assert rolling[..] == seq(MAX_ROLLING, _ => 0.0);
    }

    method OnFill(r: Report)
      requires Valid()
      modifies pnl.states
      ensures Valid()
      ensures Value() == old(Value()).(pnl := AfterFill(old(Value().pnl), r, tickSize))
    {
      pnl.OnFill(symbol, r, tickSize);
    }

    method Reconnected()
      requires Valid()
      modifies this
      ensures Valid() && Value() == OnReconnect(old(Value()))
    {
      rollingCount := 0;
      rollingHead := 0;
      skipNextSignal := true;
    }

    /** The rolling-window update and its mean. */
    method Smooth(imbalance: real) returns (smoothed: real)
      requires Valid()
      modifies this`rollingHead, this`rollingCount, rolling
      ensures Valid()
      ensures Value() == old(Value()).(ring := Push(old(Value().ring), params.window, imbalance))
      ensures smoothed == Mean(Value().ring)
    {
      rolling[rollingHead] := imbalance;
      rollingHead := (rollingHead + 1) % params.window;
      if rollingCount < params.window { rollingCount := rollingCount + 1; }
      smoothed := 0.0;
      for i := 0 to rollingCount
        invariant smoothed == SumFirst(rolling[..], i)
      {
        smoothed := smoothed + rolling[i];
      }
      smoothed := smoothed / rollingCount as real;
    }

    /** The reading part of onMarketUpdate: the touches and the imbalance, if there are any. */
    method ReadBook(book: BB.BoundedBook) returns (ok: bool, bidTop: int, askTop: int, imbalance: real)
      requires Valid() && book.Valid()
      ensures ok <==> Samples(book.Value(), params.depthLevels)
      ensures ok ==> bidTop == Top(book.Value(), Bid).value.ticks && askTop == Top(book.Value(), Ask).value.ticks
      ensures ok ==> imbalance == Imbalance(book.Value(), params.depthLevels)
    {
      ok, bidTop, askTop, imbalance := false, 0, 0, 0.0;
      ghost var b := book.Value();
      var bids := ReadSide(book, Bid, params.depthLevels);
      var asks := ReadSide(book, Ask, params.depthLevels);
      LadderHead(b, Bid);
      LadderHead(b, Ask);
      if |bids| == 0 || |asks| == 0 { return; }
      bidTop, askTop := bids[0].ticks, asks[0].ticks;
      ToDoubleMono(askTop, bidTop, tickSize);
      if ToDouble(askTop, tickSize) <= ToDouble(bidTop, tickSize) { return; }
      var bidSz := SumSizes(bids);
      var askSz := SumSizes(asks);
      var denom := bidSz + askSz;
      assert denom == TotalSize(b, params.depthLevels);
      if denom <= 0.0 { return; }
      ok := true;
      imbalance := (bidSz - askSz) / denom;
    }

    method OnMarketUpdate(book: BB.BoundedBook, now: int) returns (s: Signal)
      requires Valid() && book.Valid()
      requires EntryOk(Value().pnl) && PositiveTicks(book.Value())
      requires rolling != book.bids && rolling != book.asks
      modifies this, rolling
      ensures Valid()
      ensures (Value(), s) == OnMarket(params, tickSize, old(Value()), book.Value(), now)
    {
      var i := DecideOn(book, now);
      if i.Nothing? { return NoSignal; }
      s := ComputeOrderOn(book, tickSize, i.side, i.target);
      Emit(s, now);
    }

    /** onMarketUpdate up to the sizing. */
    method DecideOn(book: BB.BoundedBook, now: int) returns (i: Intent)
      requires Valid() && book.Valid()
      requires EntryOk(Value().pnl) && PositiveTicks(book.Value())
      requires rolling != book.bids && rolling != book.asks
      modifies this, rolling
      ensures Valid() && book.Valid() && book.Value() == old(book.Value())
      ensures (Value(), i) == Decide(params, tickSize, old(Value()), book.Value(), now)
    {
      ghost var b := book.Value();
      var ok, bidTop, askTop, imbalance := ReadBook(book);
      if !ok { return Nothing; }
      var smoothed := Smooth(imbalance);
      if skipNextSignal {
        skipNextSignal := false;
        return Nothing;
      }
      TouchIsPositive(b, Bid);
      ToDoubleMono(askTop, bidTop, tickSize);
      ToDoubleMono(bidTop, 0, tickSize);
      i := Choose(ToDouble(bidTop, tickSize), ToDouble(askTop, tickSize), smoothed, now);
    }

    /** The exits while holding, the entries while flat. */
    method Choose(bestBid: real, bestAsk: real, smoothed: real, now: int) returns (i: Intent)
      requires Valid() && EntryOk(Value().pnl) && 0.0 < bestBid < bestAsk
      ensures i == if Value().pnl.position != 0.0 then HoldingIntent(params, Value().pnl, bestBid, bestAsk)
                   else OpeningIntent(params, Value(), bestBid, bestAsk, smoothed, now)
    {
      var state := pnl.states[symbol];
      if state.position > 0.0 {
        var moveBps := (bestBid - state.avgEntry) / state.avgEntry * 10000.0;
        if moveBps >= params.takeProfitBps || moveBps <= -params.stopLossBps { return Want(Ask, state.position); }
        return Nothing;
      }
      if state.position < 0.0 {
        var moveBps := (state.avgEntry - bestAsk) / state.avgEntry * 10000.0;
        if moveBps >= params.takeProfitBps || moveBps <= -params.stopLossBps { return Want(Bid, -state.position); }
        return Nothing;
      }
      var mid := (bestBid + bestAsk) * 0.5;
      var spreadBps := (bestAsk - bestBid) / mid * 10000.0;
      var secsSinceTrade := (now - lastTradeNs) as real / 1000000000.0;
      if secsSinceTrade < params.cooldownS { return Nothing; }
      if spreadBps > params.maxSpreadBps { return Nothing; }
      if state.cash <= 0.0 { return Nothing; }
      var targetQty := params.tradeFraction * state.cash / mid;
      if smoothed > params.entryImbalance { return Want(Bid, targetQty); }
      if params.allowShort && smoothed < -params.entryImbalance { return Want(Ask, targetQty); }
      return Nothing;
    }

    method Emit(s: Signal, now: int)
      modifies this`lastTradeNs
      ensures lastTradeNs == if s.Order? then now else old(lastTradeNs)
    {
      if s.Order? { lastTradeNs := now; }
    }
  }

  /** The top levels of one side, through a depth buffer. */
  method ReadSide(book: BB.BoundedBook, side: Side, n: nat) returns (ls: seq<PriceLevel>)
    requires book.Valid() && n <= MAX_DEPTH
    ensures ls == Depth(book.Value(), side, n)
  {
    var buf := new PriceLevel[MAX_DEPTH](_ => PriceLevel(0, 0.0));
    var filled := book.Depth(side, buf, n);
    ls := buf[..filled];
  }

  method SumSizes(ls: seq<PriceLevel>) returns (size: real)
    ensures size == SumQty(ls)
  {
    size := 0.0;
    for i := 0 to |ls|
      invariant size == SumQty(ls[..i])
    {
      size := size + ls[i].qty;
      assert ls[..i + 1][..i] == ls[..i];
    }
    assert ls[..|ls|] == ls;
  }
}
