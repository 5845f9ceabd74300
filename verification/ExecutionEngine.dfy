/** `ExecutionEngine::simulate`: fills an order against the visible book. */
module ExecutionEngine {
  import opened Types
  import BookSpec
  import opened BookProperties
  import opened OrderSizer
  import BB = BoundedBook

  const DUST: real := 0.000000000001  // 1e-12

  /** The parts of `ExecutionReport` the ledgers use; price in ticks. */
  datatype Report = Report(side: Side, isFill: bool, price: int, qty: real)

  /** What a walk takes: quantity, and its cost in prices of one tick. */
  datatype Taken = Taken(filled: real, cost: real)

  /** Whether an order of this side and limit trades at a level's price. */
  predicate Matches(side: Side, limit: int, ticks: int) {
    if side == Bid then ticks <= limit else ticks >= limit
  }

  /** Takes min(remaining, level) from each matching level until at most 1e-12 remains. */
  function Sweep(ls: seq<PriceLevel>, side: Side, limit: int, remaining: real): Taken {
    if ls == [] || !Matches(side, limit, ls[0].ticks) then Taken(0.0, 0.0)
    else
      var f := Min(remaining, ls[0].qty);
      var rest := if remaining - f <= DUST then Taken(0.0, 0.0) else Sweep(ls[1..], side, limit, remaining - f);
      PlusLevel(f, ls[0].ticks, rest)
  }

  /** The report: filled quantity at the average price, rounded to a tick. */
  function SimulateOn(ls: seq<PriceLevel>, side: Side, limit: int, qty: real): Report {
    var t := Sweep(ls, side, limit, qty);
    Report(side, t.filled > 0.0, if t.filled > 0.0 then Llround(t.cost / t.filled) else limit, t.filled)
  }

  function Simulate(b: BookSpec.Book, side: Side, limit: int, qty: real): Report
    requires BookSpec.Wf(b)
  {
    SimulateOn(Depth(b, Opposite(side), MAX_BOOK_WALK), side, limit, qty)
  }

  // ---- how much is filled

  lemma {:induction false} SweepBounds(ls: seq<PriceLevel>, side: Side, limit: int, remaining: real)
    requires AllLive(ls) && remaining > 0.0
    ensures 0.0 <= Sweep(ls, side, limit, remaining).filled <= remaining
  {
    if ls != [] && Matches(side, limit, ls[0].ticks) {
      var f := Min(remaining, ls[0].qty);
      if remaining - f > DUST { SweepBounds(ls[1..], side, limit, remaining - f); }
    }
  }

  lemma {:induction false} TotalTail(ls: seq<PriceLevel>, k: nat)
    requires 1 <= k <= |ls|
    ensures Total(ls, k) == ls[0].qty + Total(ls[1..], k - 1)
  {
    if k > 1 {
      TotalTail(ls, k - 1);
      assert ls[k - 1] == ls[1..][k - 2];
    }
  }

  /** When the matching levels hold the quantity, all but dust of it is filled. */
  lemma {:induction false} SweepFills(ls: seq<PriceLevel>, side: Side, limit: int, remaining: real, k: nat)
    requires AllLive(ls) && remaining > 0.0
    requires k <= |ls| && remaining <= Total(ls, k)
    requires forall i :: 0 <= i < k ==> Matches(side, limit, ls[i].ticks)
    ensures var t := Sweep(ls, side, limit, remaining); 0.0 < t.filled && remaining - DUST <= t.filled <= remaining
  {
    var f := Min(remaining, ls[0].qty);
    TotalTail(ls, k);
    if remaining - f > DUST {
      SweepFills(ls[1..], side, limit, remaining - f, k - 1);
    }
  }

  /** The visible quantity an order can trade with: all levels up to the first that does not match. */
  function Reachable(ls: seq<PriceLevel>, side: Side, limit: int): real {
    if ls == [] || !Matches(side, limit, ls[0].ticks) then 0.0 else ls[0].qty + Reachable(ls[1..], side, limit)
  }

  lemma {:induction false} ReachableNonNegative(ls: seq<PriceLevel>, side: Side, limit: int)
    requires AllLive(ls)
    ensures Reachable(ls, side, limit) >= 0.0
  {
    if ls != [] && Matches(side, limit, ls[0].ticks) { ReachableNonNegative(ls[1..], side, limit); }
  }

  lemma {:induction false} SweepTakesAll(ls: seq<PriceLevel>, side: Side, limit: int, remaining: real)
    requires AllLive(ls) && remaining > 0.0
    ensures var t, r := Sweep(ls, side, limit, remaining), Reachable(ls, side, limit);
      Min(remaining, r) - DUST <= t.filled <= r
  {
    ReachableNonNegative(ls, side, limit);
    if ls != [] && Matches(side, limit, ls[0].ticks) {
      var f := Min(remaining, ls[0].qty);
      ReachableNonNegative(ls[1..], side, limit);
      if remaining - f > DUST { SweepTakesAll(ls[1..], side, limit, remaining - f); }
    }
  }

  /** Any order takes all the matching quantity in sight, or its own size, but for 1e-12. */
  lemma FillsAllItCan(b: BookSpec.Book, side: Side, limit: int, qty: real)
    requires BookSpec.Wf(b) && qty > 0.0
    ensures var r := Reachable(Depth(b, Opposite(side), MAX_BOOK_WALK), side, limit);
      Min(qty, r) - DUST <= Simulate(b, side, limit, qty).qty <= r
  {
    DepthIsLive(b, Opposite(side), MAX_BOOK_WALK);
    SweepTakesAll(Depth(b, Opposite(side), MAX_BOOK_WALK), side, limit, qty);
  }

  // ---- at what price

  /** A cost between the best opposing price and the limit, per unit filled. */
  predicate CostIn(side: Side, best: int, limit: int, t: Taken) {
    if side == Bid then best as real * t.filled <= t.cost <= limit as real * t.filled
    else limit as real * t.filled <= t.cost <= best as real * t.filled
  }

  lemma CostOfLevel(side: Side, best: int, limit: int, x: int, f: real)
    requires f >= 0.0
    requires if side == Bid then best <= x <= limit else limit <= x <= best
    ensures CostIn(side, best, limit, Taken(f, f * x as real))
  {
  }

  lemma CostAdds(side: Side, best: int, limit: int, s: Taken, t: Taken)
    requires CostIn(side, best, limit, s) && CostIn(side, best, limit, t)
    ensures CostIn(side, best, limit, Taken(s.filled + t.filled, s.cost + t.cost))
  {
  }

  predicate NoneBetter(side: Side, best: int, ls: seq<PriceLevel>) {
    forall i :: 0 <= i < |ls| ==> if side == Bid then best <= ls[i].ticks else ls[i].ticks <= best
  }

  /** One level taken, then the rest. */
  function PlusLevel(f: real, x: int, rest: Taken): Taken {
    Taken(f + rest.filled, f * x as real + rest.cost)
  }

  lemma CostStepIn(side: Side, best: int, limit: int, x: int, f: real, rest: Taken)
    requires f >= 0.0 && CostIn(side, best, limit, rest)
    requires if side == Bid then best <= x <= limit else limit <= x <= best
    ensures CostIn(side, best, limit, PlusLevel(f, x, rest))
  {
    CostOfLevel(side, best, limit, x, f);
    CostAdds(side, best, limit, Taken(f, f * x as real), rest);
  }

  lemma {:induction false} CostBetween(ls: seq<PriceLevel>, side: Side, limit: int, remaining: real, best: int)
    requires AllLive(ls) && remaining > 0.0 && NoneBetter(side, best, ls)
    ensures CostIn(side, best, limit, Sweep(ls, side, limit, remaining))
  {
    var none := Taken(0.0, 0.0);
    assert CostIn(side, best, limit, none);
    if ls != [] && Matches(side, limit, ls[0].ticks) {
      var f := Min(remaining, ls[0].qty);
      if remaining - f > DUST { CostBetween(ls[1..], side, limit, remaining - f, best); }
      var rest := if remaining - f <= DUST then none else Sweep(ls[1..], side, limit, remaining - f);
      CostStepIn(side, best, limit, ls[0].ticks, f, rest);
    }
  }

  lemma AverageBetween(cost: real, filled: real, lo: int, hi: int)
    requires filled > 0.0 && lo as real * filled <= cost <= hi as real * filled
    ensures lo <= Llround(cost / filled) <= hi
  {
    var q := cost / filled;
    assert q * filled == cost;
    CancelMul(lo as real, q, filled);
    CancelMul(q, hi as real, filled);
    LlroundBetween(q, lo, hi);
  }

  lemma AverageIn(side: Side, best: int, limit: int, t: Taken)
    requires t.filled > 0.0 && CostIn(side, best, limit, t)
    ensures PriceBetween(side, best, limit, Llround(t.cost / t.filled))
  {
    if side == Bid { AverageBetween(t.cost, t.filled, best, limit); }
    else { AverageBetween(t.cost, t.filled, limit, best); }
  }

  /** A tick price between the best opposing level and the limit, whichever way the side runs. */
  predicate PriceBetween(side: Side, best: int, limit: int, price: int) {
    if side == Bid then best <= price <= limit else limit <= price <= best
  }

  lemma BestOpposing(b: BookSpec.Book, side: Side, n: nat)
    requires BookSpec.Wf(b) && Depth(b, Opposite(side), n) != []
    ensures var ls := Depth(b, Opposite(side), n);
      Top(b, Opposite(side)) == Some(ls[0]) && NoneBetter(side, ls[0].ticks, ls)
  {
    LadderHead(b, Opposite(side));
    LadderSpec(b, Opposite(side));
    var ls := Depth(b, Opposite(side), n);
    forall i | 0 < i < |ls| ensures Better(Opposite(side), ls[0].ticks, ls[i].ticks) {}
  }

  lemma PriceOfSweep(ls: seq<PriceLevel>, side: Side, limit: int, qty: real, best: int)
    requires AllLive(ls) && qty > 0.0 && NoneBetter(side, best, ls)
    requires Sweep(ls, side, limit, qty).filled > 0.0
    ensures PriceBetween(side, best, limit, SimulateOn(ls, side, limit, qty).price)
  {
    CostBetween(ls, side, limit, qty, best);
    AverageIn(side, best, limit, Sweep(ls, side, limit, qty));
  }

  /** Any fill has no greater size than the order and a price between the opposing touch and the limit. */
  lemma FillBounds(b: BookSpec.Book, side: Side, limit: int, qty: real)
    requires BookSpec.Wf(b) && qty > 0.0
    ensures var r := Simulate(b, side, limit, qty);
      && r.side == side
      && 0.0 <= r.qty <= qty
      && (r.isFill <==> r.qty > 0.0)
      && (r.isFill ==> Top(b, Opposite(side)).Some?
                       && PriceBetween(side, Top(b, Opposite(side)).value.ticks, limit, r.price))
      && (!r.isFill ==> r.price == limit)
  {
    var ls := Depth(b, Opposite(side), MAX_BOOK_WALK);
    DepthIsLive(b, Opposite(side), MAX_BOOK_WALK);
    SweepBounds(ls, side, limit, qty);
    if Sweep(ls, side, limit, qty).filled > 0.0 {
      BestOpposing(b, side, MAX_BOOK_WALK);
      PriceOfSweep(ls, side, limit, qty, ls[0].ticks);
    }
  }

  // ---- level by level

  /** Every level up to i trades. */
  predicate MatchesThrough(ls: seq<PriceLevel>, side: Side, limit: int, i: nat)
    requires i < |ls|
  {
    forall j :: 0 <= j <= i ==> Matches(side, limit, ls[j].ticks)
  }

  /** What an order takes from level i: what the levels before it left, as far as the level goes. */
  function TakeAt(ls: seq<PriceLevel>, side: Side, limit: int, qty: real, i: nat): real
    requires i < |ls|
  {
    var left := qty - Total(ls, i);
    if MatchesThrough(ls, side, limit, i) && (i == 0 || left > DUST) then Min(left, ls[i].qty) else 0.0
  }

  /** Quantity, and quantity times tick, taken from level i on. */
  function TakenFrom(ls: seq<PriceLevel>, side: Side, limit: int, qty: real, i: nat): Taken
    requires i <= |ls|
    decreases |ls| - i
  {
    if i == |ls| then Taken(0.0, 0.0)
    else PlusLevel(TakeAt(ls, side, limit, qty, i), ls[i].ticks, TakenFrom(ls, side, limit, qty, i + 1))
  }

  lemma {:induction false} NothingFrom(ls: seq<PriceLevel>, side: Side, limit: int, qty: real, i: nat)
    requires i <= |ls| && forall j :: i <= j < |ls| ==> TakeAt(ls, side, limit, qty, j) == 0.0
    ensures TakenFrom(ls, side, limit, qty, i) == Taken(0.0, 0.0)
    decreases |ls| - i
  {
    if i < |ls| { NothingFrom(ls, side, limit, qty, i + 1); }
  }

  lemma {:induction false} NothingPastDust(ls: seq<PriceLevel>, side: Side, limit: int, qty: real, i: nat)
    requires AllLive(ls) && 0 < i <= |ls| && qty - Total(ls, i) <= DUST
    ensures TakenFrom(ls, side, limit, qty, i) == Taken(0.0, 0.0)
  {
    forall j | i <= j < |ls| ensures TakeAt(ls, side, limit, qty, j) == 0.0 { TotalMono(ls, i, j); }
    NothingFrom(ls, side, limit, qty, i);
  }

  lemma {:induction false} NothingPastMismatch(ls: seq<PriceLevel>, side: Side, limit: int, qty: real, i: nat)
    requires i < |ls| && !Matches(side, limit, ls[i].ticks)
    ensures TakenFrom(ls, side, limit, qty, i) == Taken(0.0, 0.0)
  {
    NothingFrom(ls, side, limit, qty, i);
  }

  lemma {:induction false} SweepFrom(ls: seq<PriceLevel>, side: Side, limit: int, qty: real, i: nat)
    requires AllLive(ls) && i <= |ls| && (i == 0 || qty - Total(ls, i) > DUST)
    requires forall j :: 0 <= j < i ==> Matches(side, limit, ls[j].ticks)
    ensures Sweep(ls[i..], side, limit, qty - Total(ls, i)) == TakenFrom(ls, side, limit, qty, i)
    decreases |ls| - i
  {
    hide PlusLevel;
    if i < |ls| {
      assert ls[i..][0] == ls[i] && ls[i..][1..] == ls[i + 1..];
      if !Matches(side, limit, ls[i].ticks) {
        NothingPastMismatch(ls, side, limit, qty, i);
      } else {
        assert MatchesThrough(ls, side, limit, i);
        if qty - Total(ls, i + 1) > DUST {
          SweepFrom(ls, side, limit, qty, i + 1);
        } else {
          NothingPastDust(ls, side, limit, qty, i + 1);
        }
      }
    }
  }

  /** The sweep takes from each level what the levels before it left. */
  lemma SweepIsLevelByLevel(ls: seq<PriceLevel>, side: Side, limit: int, qty: real)
    requires AllLive(ls)
    ensures Sweep(ls, side, limit, qty) == TakenFrom(ls, side, limit, qty, 0)
  {
    SweepFrom(ls, side, limit, qty, 0);
    assert ls[0..] == ls;
  }

  /** Price times quantity is within half a tick times the quantity of the cost. */
  predicate NearAverage(price: int, filled: real, cost: real) {
    var gap := price as real * filled - cost;
    -filled <= 2.0 * gap && 2.0 * gap <= filled
  }

  /** A report's quantity is what the levels give, and its price times that is within half a tick of what it costs. */
  lemma FillIsAveragePrice(b: BookSpec.Book, side: Side, limit: int, qty: real)
    requires BookSpec.Wf(b)
    ensures var t, r := TakenFrom(Depth(b, Opposite(side), MAX_BOOK_WALK), side, limit, qty, 0), Simulate(b, side, limit, qty);
      && r.qty == t.filled
      && (r.isFill ==> NearAverage(r.price, r.qty, t.cost))
  {
    DepthIsLive(b, Opposite(side), MAX_BOOK_WALK);
    PriceIsAverage(Depth(b, Opposite(side), MAX_BOOK_WALK), side, limit, qty);
    hide SimulateOn, TakenFrom, Depth, NearAverage;
  }

  lemma PriceIsAverage(ls: seq<PriceLevel>, side: Side, limit: int, qty: real)
    requires AllLive(ls)
    ensures var t, r := TakenFrom(ls, side, limit, qty, 0), SimulateOn(ls, side, limit, qty);
      && r.qty == t.filled
      && (r.isFill ==> NearAverage(r.price, r.qty, t.cost))
  {
    SweepIsLevelByLevel(ls, side, limit, qty);
    var t := Sweep(ls, side, limit, qty);
    hide Sweep, TakenFrom;
    hide Llround, NearAverage;
    if t.filled > 0.0 { AverageIsNear(t.cost, t.filled); }
  }

  lemma AverageIsNear(cost: real, filled: real)
    requires filled > 0.0
    ensures NearAverage(Llround(cost / filled), filled, cost)
  {
    LlroundNearest(cost / filled);
    assert (cost / filled) * filled == cost;
    ScaleWithin(Llround(cost / filled) as real, cost / filled, cost, filled);
  }

  /** An order sized on a book and simulated on the same book fills to within 1e-12 of its size. */
  lemma SizedOrderFills(b: BookSpec.Book, side: Side, target: real)
    requires BookSpec.Wf(b) && ComputeOrder(b, side, target).Order?
    ensures var o := ComputeOrder(b, side, target);
      var r := Simulate(b, o.side, o.price, o.qty);
      && o.side == side && 0.0 < o.qty <= target
      && r.isFill && r.side == side
      && 0.0 < r.qty <= o.qty && r.qty >= o.qty - DUST
  {
    var o := ComputeOrder(b, side, target);
    var ls := Depth(b, Opposite(side), MAX_BOOK_WALK);
    DepthIsLive(b, Opposite(side), MAX_BOOK_WALK);
    LadderSpec(b, Opposite(side));
    SizedOrder(ls, side, target);
    var k := Touched(ls, target, 1);
    forall i | 0 <= i < k ensures Matches(side, o.price, ls[i].ticks) {
      assert i == k - 1 || Better(Opposite(side), ls[i].ticks, ls[k - 1].ticks);
    }
    SweepFills(ls, side, o.price, o.qty, k);
  }

  // ---- the loop of the source, in double prices

  method SimulateOrder(book: BB.BoundedBook, tick: real, side: Side, price: int, qty: real) returns (r: Report)
    requires book.Valid() && tick > 0.0
    ensures r == Simulate(book.Value(), side, price, qty)
  {
    var levels := new PriceLevel[MAX_BOOK_WALK](_ => PriceLevel(0, 0.0));
    var n := book.Depth(Opposite(side), levels, MAX_BOOK_WALK);
    r := FillWalk(levels[..n], tick, side, price, qty);
  }

  method FillWalk(ls: seq<PriceLevel>, tick: real, side: Side, price: int, qty: real) returns (r: Report)
    requires tick > 0.0
    ensures r == SimulateOn(ls, side, price, qty)
  {
    var limitPx := ToDouble(price, tick);
    var remaining, filled, cost := qty, 0.0, 0.0;
    ghost var all := Sweep(ls, side, price, qty);
    ghost var left := all;
    ghost var units := 0.0;  // the cost so far, in ticks
    var i := 0;
    while i < |ls|
      invariant 0 <= i <= |ls|
      invariant left == Sweep(ls[i..], side, price, remaining)
      invariant filled + left.filled == all.filled
      invariant units + left.cost == all.cost && cost == units * tick
      decreases |ls| - i
    {
      var lvlPx := ToDouble(ls[i].ticks, tick);
      var lvlSize := ls[i].qty;
      var matching := if side == Bid then lvlPx <= limitPx else lvlPx >= limitPx;
      ToDoubleMono(ls[i].ticks, price, tick);
      ToDoubleMono(price, ls[i].ticks, tick);
      if !matching { break; }
      var fillSize := if remaining < lvlSize then remaining else lvlSize;
      ghost var rest := if remaining - fillSize <= DUST then Taken(0.0, 0.0)
                        else Sweep(ls[i + 1..], side, price, remaining - fillSize);
      assert ls[i..][1..] == ls[i + 1..];
      assert left == PlusLevel(fillSize, ls[i].ticks, rest);
      remaining := remaining - fillSize;
      filled := filled + fillSize;
      ghost var grown := units + left.cost - rest.cost;
      cost := AddCost(cost, fillSize, ls[i].ticks, tick, units, grown, left, rest);
      units := grown;
      left := rest;
      if remaining <= DUST { break; }
      i := i + 1;
    }
    assert left == Taken(0.0, 0.0) && units == all.cost;
    if filled > 0.0 {
      AveragePrice(cost, units, filled, tick);
      r := Report(side, true, FromDouble(cost / filled, tick), filled);
    } else {
      r := Report(side, false, price, filled);
    }
  }

  /** cost += fillSize * lvlPx; `units` and `grown` are the cost before and after, in ticks. */
  method AddCost(
    cost: real, f: real, x: int, tick: real, ghost units: real, ghost grown: real, ghost left: Taken, ghost rest: Taken)
    returns (c: real)
    requires cost == units * tick && left == PlusLevel(f, x, rest)
    requires grown == units + left.cost - rest.cost
    ensures c == grown * tick
  {
    c := cost + f * ToDouble(x, tick);
    assert grown == units + f * x as real;
  }

  lemma AveragePrice(cost: real, units: real, filled: real, tick: real)
    requires filled > 0.0 && tick > 0.0 && cost == units * tick
    ensures (cost / filled) / tick == units / filled
  {
    var a, b := (cost / filled) / tick, units / filled;
    assert a * tick * filled == cost && b * filled == units;
    assert (a * tick) * filled == (b * tick) * filled;
  }
}
