/** `PnlTracker`: cash, position, average entry and realized profit, fill by fill. */
module PnlTracker {
  import opened Types
  import opened ExecutionEngine

  /** `PnlState` */
  datatype Pnl = Pnl(cash: real, position: real, avgEntry: real, realized: real)

  function Seeded(cash: real): Pnl {
    Pnl(cash, 0.0, 0.0, 0.0)
  }

  /** A buy adds to the position, a sell takes from it. */
  function Signed(side: Side, qty: real): real {
    if side == Bid then qty else -qty
  }

  predicate SameDirection(pos: real, q: real) {
    pos == 0.0 || ((pos > 0.0) == (q > 0.0))
  }

  predicate Flips(pos: real, q: real) {
    !SameDirection(pos, q) && pos + q != 0.0 && (pos + q > 0.0) != (pos > 0.0)
  }

  function MinReal(a: real, b: real): real {
    if b < a then b else a
  }

  function MaxReal(a: real, b: real): real {
    if a < b then b else a
  }

  /** Average entry after adding q at px to a position on the same side. */
  function BlendedEntry(pos: real, avg: real, q: real, px: real): real {
    if Abs(pos + q) > DUST then (avg * Abs(pos) + px * Abs(q)) / Abs(pos + q) else 0.0
  }

  /** Profit taken by closing with q at px. */
  function ClosedProfit(pos: real, avg: real, q: real, px: real): real {
    (if pos > 0.0 then 1.0 else -1.0) * (px - avg) * MinReal(Abs(q), Abs(pos))
  }

  /** The state after q (signed) trades at px. */
  function Traded(s: Pnl, q: real, px: real): Pnl {
    var pos := s.position;
    var newPos := pos + q;
    var snapped := if Abs(newPos) <= DUST then 0.0 else newPos;
    if SameDirection(pos, q) then
      Pnl(s.cash - q * px, snapped, BlendedEntry(pos, s.avgEntry, q, px), s.realized)
    else
      var entry := if Flips(pos, q) then px else if Abs(newPos) <= DUST then 0.0 else s.avgEntry;
      Pnl(s.cash - q * px, snapped, entry, s.realized + ClosedProfit(pos, s.avgEntry, q, px))
  }

  function AfterFill(s: Pnl, r: Report, tick: real): Pnl {
    if !r.isFill then s else Traded(s, Signed(r.side, r.qty), ToDouble(r.price, tick))
  }

  function Unrealized(s: Pnl, mark: real): real {
    if s.position == 0.0 then 0.0 else s.position * (mark - s.avgEntry)
  }

  // ---- conservation

  /** Cash plus the position at entry, less what was realized: constant but for snaps. */
  function Invested(s: Pnl): real {
    s.cash + s.position * s.avgEntry - s.realized
  }

  /** Whether booking q rounds a tiny non-zero position away. */
  predicate Snaps(s: Pnl, q: real) {
    s.position + q != 0.0 && Abs(s.position + q) <= DUST
  }

  /** 1e-12 of an amount. */
  function DustOf(m: real): real {
    0.000000000001 * m
  }

  /** What one snap may move. */
  function SnapBudget(s: Pnl, q: real, px: real): real {
    if Snaps(s, q) then DustOf(MaxReal(Abs(px), Abs(s.avgEntry))) else 0.0
  }

  lemma BlendedCost(pos: real, avg: real, q: real, px: real)
    requires (pos >= 0.0 && q >= 0.0) || (pos <= 0.0 && q <= 0.0)
    requires Abs(pos + q) > DUST
    ensures (pos + q) * BlendedEntry(pos, avg, q, px) == pos * avg + q * px
  {
    var cost := avg * Abs(pos) + px * Abs(q);
    var n := Abs(pos + q);
    assert n * (cost / n) == cost;
  }

  lemma NonNegative(a: real, b: real)
    requires a >= 0.0 && b >= 0.0
    ensures a * b >= 0.0
  {
  }

  lemma ProductBound(x: real, a: real, m: real)
    requires Abs(a) <= m
    ensures -(Abs(x) * m) <= x * a <= Abs(x) * m
  {
    var n := Abs(x);
    NonNegative(n, m - a);
    NonNegative(n, m + a);
    assert n * (m - a) == n * m - n * a && n * (m + a) == n * m + n * a;
  }

  lemma ScaleBound(n: real, a: real, m: real)
    requires 0.0 <= n <= DUST && 0.0 <= a <= m
    ensures n * a <= DustOf(m)
  {
    NonNegative(DUST - n, a);
    assert (DUST - n) * a == DustOf(a) - n * a;
  }

  /** Exactly what a fill takes from the invested total: nothing unless the position is rounded away. */
  function Lost(s: Pnl, q: real, px: real): real {
    if Abs(s.position + q) > DUST then 0.0 else LostOf(s.position, s.avgEntry, q, px)
  }

  function LostOf(pos: real, avg: real, q: real, px: real): real {
    if SameDirection(pos, q) then pos * avg + q * px
    else if Flips(pos, q) then (pos + q) * px
    else (pos + q) * avg
  }

  lemma AddLoses(s: Pnl, q: real, px: real)
    requires SameDirection(s.position, q)
    ensures Invested(Traded(s, q, px)) == Invested(s) - Lost(s, q, px)
  {
    if Abs(s.position + q) > DUST { BlendedCost(s.position, s.avgEntry, q, px); }
  }

  /** The realized profit of closing `closed` units (signed like the position). */
  lemma ClosedIs(pos: real, avg: real, q: real, px: real, closed: real)
    requires pos != 0.0 && MinReal(Abs(q), Abs(pos)) == Abs(closed)
    requires closed == 0.0 || (closed > 0.0) == (pos > 0.0)
    ensures ClosedProfit(pos, avg, q, px) == closed * px - closed * avg
  {
  }

  /** Closing part of a position: the profit taken and the entry given up cancel. */
  lemma CloseLoses(s: Pnl, q: real, px: real)
    requires !SameDirection(s.position, q) && !Flips(s.position, q)
    ensures Invested(Traded(s, q, px)) == Invested(s) - Lost(s, q, px)
  {
    ClosedIs(s.position, s.avgEntry, q, px, -q);
    assert (s.position + q) * s.avgEntry == s.position * s.avgEntry + q * s.avgEntry;
  }

  lemma FlipLoses(s: Pnl, q: real, px: real)
    requires Flips(s.position, q)
    ensures Invested(Traded(s, q, px)) == Invested(s) - Lost(s, q, px)
  {
    ClosedIs(s.position, s.avgEntry, q, px, s.position);
    assert (s.position + q) * px == s.position * px + q * px;
  }

  lemma BlendLostBound(pos: real, avg: real, q: real, px: real, m: real)
    requires SameDirection(pos, q) && Abs(pos + q) <= DUST
    requires Abs(px) <= m && Abs(avg) <= m
    ensures Abs(pos * avg + q * px) <= DustOf(m)
  {
    ProductBound(pos, avg, m);
    ProductBound(q, px, m);
    assert Abs(pos) + Abs(q) <= DUST;
    SumScale(Abs(pos), Abs(q), m);
    SumWithin(pos * avg, q * px, Abs(pos) * m, Abs(q) * m, DustOf(m));
  }

  lemma SumWithin(a: real, b: real, u: real, v: real, d: real)
    requires -u <= a <= u && -v <= b <= v && u + v <= d
    ensures Abs(a + b) <= d
  {
  }

  lemma SumScale(u: real, v: real, m: real)
    requires u >= 0.0 && v >= 0.0 && u + v <= DUST && m >= 0.0
    ensures u * m + v * m <= DustOf(m)
  {
    NonNegative(DUST - u - v, m);
    assert (DUST - u - v) * m == DustOf(m) - u * m - v * m;
  }

  lemma RestLostBound(n: real, a: real, m: real)
    requires Abs(n) <= DUST && Abs(a) <= m
    ensures Abs(n * a) <= DustOf(m)
  {
    ProductBound(n, a, m);
    ScaleBound(Abs(n), m, m);
    SumWithin(n * a, 0.0, Abs(n) * m, 0.0, DustOf(m));
  }

  lemma LostWithinBudget(s: Pnl, q: real, px: real)
    ensures Abs(Lost(s, q, px)) <= SnapBudget(s, q, px)
  {
    var n := s.position + q;
    if n == 0.0 {
      NothingLostAtZero(s, q, px);
    } else if Abs(n) <= DUST {
      SnapLoses(s.position, s.avgEntry, q, px, MaxReal(Abs(px), Abs(s.avgEntry)));
    }
  }

  lemma NothingLostAtZero(s: Pnl, q: real, px: real)
    requires s.position + q == 0.0
    ensures Lost(s, q, px) == 0.0
  {
    if SameDirection(s.position, q) { assert s.position == 0.0 && q == 0.0; }
  }

  lemma SnapLoses(pos: real, avg: real, q: real, px: real, m: real)
    requires Abs(pos + q) <= DUST && Abs(px) <= m && Abs(avg) <= m
    ensures Abs(LostOf(pos, avg, q, px)) <= DustOf(m)
  {
    if SameDirection(pos, q) { BlendLostBound(pos, avg, q, px, m); }
    else if Flips(pos, q) { RestLostBound(pos + q, px, m); }
    else { RestLostBound(pos + q, avg, m); }
  }

  /** One fill, of any sign and size, moves the invested total by no more than its snap budget. */
  lemma FillConserves(s: Pnl, q: real, px: real)
    ensures Invested(Traded(s, q, px)) == Invested(s) - Lost(s, q, px)
    ensures Abs(Lost(s, q, px)) <= SnapBudget(s, q, px)
  {
    LostWithinBudget(s, q, px);
    if SameDirection(s.position, q) { AddLoses(s, q, px); }
    else if Flips(s.position, q) { FlipLoses(s, q, px); }
    else { CloseLoses(s, q, px); }
  }

  /** Adding to a position realizes nothing, and the entry prices the position at what it cost. */
  lemma AddsAtCost(s: Pnl, q: real, px: real)
    requires SameDirection(s.position, q) && Abs(s.position + q) > DUST
    ensures var r := Traded(s, q, px);
      && r.realized == s.realized
      && r.position * r.avgEntry == s.position * s.avgEntry + q * px
  {
    BlendedCost(s.position, s.avgEntry, q, px);
  }

  /** How much of a position a trade against it closes, signed like the position. */
  function Closed(pos: real, q: real): real {
    if Abs(q) <= Abs(pos) then -q else pos
  }

  /**
   Trading against a position realizes the price difference on what is closed; what is left
   keeps its entry, and what goes beyond it is entered at the trade's price.
   */
  lemma ClosesAtProfit(s: Pnl, q: real, px: real)
    requires !SameDirection(s.position, q)
    ensures var r, closed := Traded(s, q, px), Closed(s.position, q);
      && r.realized - s.realized == closed * px - closed * s.avgEntry
      && (Abs(s.position + q) > DUST ==> r.avgEntry == if Abs(q) > Abs(s.position) then px else s.avgEntry)
  {
    ClosedIs(s.position, s.avgEntry, q, px, Closed(s.position, q));
  }

  // ---- whole runs

  /** A signed quantity and the price it traded at. */
  datatype Trade = Trade(q: real, px: real)

  function Run(seed: real, ts: seq<Trade>): Pnl {
    if ts == [] then Seeded(seed)
    else Traded(Run(seed, ts[..|ts| - 1]), ts[|ts| - 1].q, ts[|ts| - 1].px)
  }

  function RunBudget(seed: real, ts: seq<Trade>): real {
    if ts == [] then 0.0
    else
      var t := ts[|ts| - 1];
      RunBudget(seed, ts[..|ts| - 1]) + SnapBudget(Run(seed, ts[..|ts| - 1]), t.q, t.px)
  }

  /** Over any fills, adds, partial closes and flips included, the invested total stays the seeded cash. */
  lemma {:induction false} RunConserves(seed: real, ts: seq<Trade>)
    ensures Abs(Invested(Run(seed, ts)) - seed) <= RunBudget(seed, ts)
  {
    if ts != [] {
      var before, t := ts[..|ts| - 1], ts[|ts| - 1];
      RunConserves(seed, before);
      FillConserves(Run(seed, before), t.q, t.px);
    }
  }

  /** Equity at any mark is the seed plus realized plus unrealized profit, up to the snaps. */
  lemma EquityIsSeedPlusProfit(seed: real, ts: seq<Trade>, mark: real)
    ensures EquityWithin(Run(seed, ts), mark, seed, RunBudget(seed, ts))
  {
    RunConserves(seed, ts);
    EquityGap(Run(seed, ts), mark, seed, RunBudget(seed, ts));
  }

  /** Equity at the mark equals seed plus realized plus unrealized profit to within a tolerance. */
  predicate EquityWithin(s: Pnl, mark: real, seed: real, tolerance: real) {
    Abs((s.cash + s.position * mark) - (seed + s.realized + Unrealized(s, mark))) <= tolerance
  }

  lemma EquityGap(s: Pnl, mark: real, seed: real, tolerance: real)
    requires Abs(Invested(s) - seed) <= tolerance
    ensures EquityWithin(s, mark, seed, tolerance)
  {
    EquityAtMark(s, mark);
  }

  lemma EquityAtMark(s: Pnl, mark: real)
    ensures (s.cash + s.position * mark) - (s.realized + Unrealized(s, mark)) == Invested(s)
  {
    assert s.position * (mark - s.avgEntry) == s.position * mark - s.position * s.avgEntry;
  }

  /** Without snaps the books balance exactly. */
  lemma {:induction false} NoSnapsBalanceExactly(seed: real, ts: seq<Trade>)
    requires forall k :: 0 <= k < |ts| ==> !Snaps(Run(seed, ts[..k]), ts[k].q)
    ensures Invested(Run(seed, ts)) == seed
  {
    RunConserves(seed, ts);
    NoSnapsNoBudget(seed, ts);
  }

  lemma {:induction false} NoSnapsNoBudget(seed: real, ts: seq<Trade>)
    requires forall k :: 0 <= k < |ts| ==> !Snaps(Run(seed, ts[..k]), ts[k].q)
    ensures RunBudget(seed, ts) == 0.0
  {
    if ts != [] {
      var before := ts[..|ts| - 1];
      assert !Snaps(Run(seed, ts[..|ts| - 1]), ts[|ts| - 1].q);
      forall k | 0 <= k < |before| ensures !Snaps(Run(seed, before[..k]), before[k].q) {
        assert before[..k] == ts[..k];
      }
      NoSnapsNoBudget(seed, before);
    }
  }

  /**
   A flip that leaves dust records the fill price as the entry of a flat position, so a
   flat tracker need not have a zero average entry.
   */
  lemma FlatWithEntry()
    ensures var s := Traded(Pnl(0.0, 1.0, 100.0, 0.0), -1.0 - DUST, 110.0);
      s.position == 0.0 && s.avgEntry == 110.0
  {
  }

  /** After one fill the tracker is flat with a zero entry unless a flip left only dust. */
  lemma FlatEntryIffNoDustFlip(s: Pnl, q: real, px: real)
    requires px != 0.0 && Traded(s, q, px).position == 0.0
    ensures Traded(s, q, px).avgEntry == 0.0 <==> !Flips(s.position, q)
  {
  }

  // ---- the class

  class PnlTracker {
    const states: array<Pnl>

    ghost predicate Valid()
      reads this
    {
      states.Length == MAX_SYMBOLS
    }

    constructor ()
      ensures Valid() && fresh(states)
      ensures forall i :: 0 <= i < MAX_SYMBOLS ==> states[i] == Seeded(0.0)
    {
      states := new Pnl[MAX_SYMBOLS](_ => Seeded(0.0));
    }

    method SeedCash(id: nat, cash: real)
      requires Valid()
      modifies states
      ensures states[..] == if id < MAX_SYMBOLS then old(states[..])[id := old(states[id]).(cash := cash)] else old(states[..])
    {
      if id < MAX_SYMBOLS { states[id] := states[id].(cash := cash); }
    }

    method OnFill(id: nat, r: Report, tick: real)
      requires Valid()
      modifies states
      ensures states[..] ==
        if id < MAX_SYMBOLS then old(states[..])[id := AfterFill(old(states[id]), r, tick)] else old(states[..])
    {
      if !r.isFill || id >= MAX_SYMBOLS { return; }
      var s := states[id];
      var px := ToDouble(r.price, tick);
      var signedQty := r.qty * (if r.side == Bid then 1.0 else -1.0);
      assert signedQty == Signed(r.side, r.qty);
      states[id] := ApplyTrade(s, signedQty, px);
    }
  }

  /** The arithmetic of onFill. */
  method ApplyTrade(s: Pnl, signedQty: real, px: real) returns (after: Pnl)
    ensures after == Traded(s, signedQty, px)
  {
    var pos := s.position;
    var newPos := pos + signedQty;
    after := s.(cash := s.cash - signedQty * px);
    var sameDirection := pos == 0.0 || (pos > 0.0) == (signedQty > 0.0);
    if sameDirection {
      after := after.(avgEntry := BlendedEntry(pos, s.avgEntry, signedQty, px));
    } else {
      after := after.(realized := s.realized + ClosedProfit(pos, s.avgEntry, signedQty, px));
      var flipped := newPos != 0.0 && (newPos > 0.0) != (pos > 0.0);
      if flipped {
        after := after.(avgEntry := px);
      } else if Abs(newPos) <= DUST {
        after := after.(avgEntry := 0.0);
      }
    }
    after := after.(position := if Abs(newPos) <= DUST then 0.0 else newPos);
  }
}
