/** `RiskManager`: position and cash limits, checked at the limit price before dispatch. */
module RiskManager {
  import opened Types
  import opened ExecutionEngine
  import opened PnlTracker

  /** The account of one symbol, with the manager's cash check on. */
  datatype Risk = Risk(position: real, maxPosition: real, cash: real)

  /** approve(): the projected position stays within the limit and a buy is affordable at its limit. */
  predicate Approves(r: Risk, side: Side, price: int, qty: real, tick: real) {
    var projected := r.position + Signed(side, qty);
    && -r.maxPosition <= projected <= r.maxPosition
    && (side == Bid ==> qty * ToDouble(price, tick) <= r.cash)
  }

  function Settle(r: Risk, rpt: Report, tick: real): Risk {
    if !rpt.isFill then r
    else
      var q := Signed(rpt.side, rpt.qty);
      r.(position := r.position + q, cash := r.cash - q * ToDouble(rpt.price, tick))
  }

  /** The limits the manager is there for. */
  predicate WithinLimits(r: Risk) {
    -r.maxPosition <= r.position <= r.maxPosition && r.cash >= 0.0
  }

  lemma ProductLe(a: real, b: real, x: real, y: real)
    requires 0.0 <= a <= b && 0.0 <= x <= y
    ensures 0.0 <= a * x <= b * y
  {
    assert a * x <= b * x && b * x <= b * y;
  }

  /** A fill no larger than the approved order, at no worse a price, keeps the account within its limits. */
  lemma ApprovedFillStaysWithin(r: Risk, side: Side, limit: int, qty: real, rpt: Report, best: int, tick: real)
    requires tick > 0.0 && WithinLimits(r) && Approves(r, side, limit, qty, tick)
    requires rpt.side == side && 0.0 <= rpt.qty <= qty
    requires rpt.isFill ==> best > 0 && PriceBetween(side, best, limit, rpt.price)
    requires limit > 0
    ensures WithinLimits(Settle(r, rpt, tick))
  {
    if rpt.isFill {
      assert rpt.price > 0;
      ToDoubleMono(0, rpt.price, tick);
      if side == Bid {
        ToDoubleMono(rpt.price, limit, tick);
        ProductLe(rpt.qty, qty, ToDouble(rpt.price, tick), ToDouble(limit, tick));
      } else {
        ProductLe(rpt.qty, qty, ToDouble(rpt.price, tick), ToDouble(rpt.price, tick));
        NegatedProduct(rpt.qty, ToDouble(rpt.price, tick));
      }
    }
  }

  /** A full fill of an order at its limit. */
  function FullFill(side: Side, price: int, qty: real): Report {
    Report(side, true, price, qty)
  }

  /** An order is approved exactly when a full fill at its limit would keep the account within its limits. */
  lemma ApprovesIffFillStaysWithin(r: Risk, side: Side, price: int, qty: real, tick: real)
    requires tick > 0.0 && WithinLimits(r) && qty >= 0.0 && price >= 0
    ensures Approves(r, side, price, qty, tick) <==> WithinLimits(Settle(r, FullFill(side, price, qty), tick))
  {
    ToDoubleMono(0, price, tick);
    ProductLe(qty, qty, ToDouble(price, tick), ToDouble(price, tick));
    NegatedProduct(qty, ToDouble(price, tick));
  }

  lemma NegatedProduct(q: real, px: real)
    ensures (-q) * px == -(q * px)
  {
  }

  // ---- the class

  class RiskManager {
    const positions: array<real>
    const maxPositions: array<real>
    const cash: array<real>
    var tick: real
    var cashEnabled: bool

    ghost predicate Valid()
      reads this
    {
      && positions.Length == maxPositions.Length == cash.Length == MAX_SYMBOLS
      && positions != maxPositions && positions != cash && maxPositions != cash
    }

    ghost function Account(id: nat): Risk
      requires Valid() && id < MAX_SYMBOLS
      reads this, positions, maxPositions, cash
    {
      Risk(positions[id], maxPositions[id], cash[id])
    }

    constructor ()
      ensures Valid() && fresh(positions) && fresh(maxPositions) && fresh(cash)
      ensures forall id :: 0 <= id < MAX_SYMBOLS ==> Account(id) == Risk(0.0, 0.0, 0.0)
      ensures tick == 0.0 && !cashEnabled
    {
      positions := new real[MAX_SYMBOLS](_ => 0.0);
      maxPositions := new real[MAX_SYMBOLS](_ => 0.0);
      cash := new real[MAX_SYMBOLS](_ => 0.0);
      tick, cashEnabled := 0.0, false;
    }

    /** A negative initial cash leaves the cash check as it was. */
    method Configure(id: nat, maxPosition: real, initialCash: real, tickSize: real)
      requires Valid()
      modifies this, maxPositions, cash
      ensures Valid()
      ensures positions[..] == old(positions[..])
      ensures maxPositions[..] == if id < MAX_SYMBOLS then old(maxPositions[..])[id := maxPosition] else old(maxPositions[..])
      ensures if id < MAX_SYMBOLS && initialCash >= 0.0
              then cash[..] == old(cash[..])[id := initialCash] && cashEnabled && tick == tickSize
              else cash[..] == old(cash[..]) && cashEnabled == old(cashEnabled) && tick == old(tick)
    {
      if id >= MAX_SYMBOLS { return; }
      maxPositions[id] := maxPosition;
      if initialCash >= 0.0 {
        cash[id] := initialCash;
        cashEnabled := true;
        tick := tickSize;
      }
    }

    method Approve(id: nat, side: Side, price: int, qty: real) returns (ok: bool)
      requires Valid()
      ensures id >= MAX_SYMBOLS ==> !ok
      ensures id < MAX_SYMBOLS && cashEnabled ==> (ok <==> Approves(Account(id), side, price, qty, tick))
      ensures id < MAX_SYMBOLS && !cashEnabled ==>
        (ok <==> -maxPositions[id] <= positions[id] + Signed(side, qty) <= maxPositions[id])
    {
      if id >= MAX_SYMBOLS { return false; }
      var delta := qty * (if side == Bid then 1.0 else -1.0);
      assert delta == Signed(side, qty);
      var projected := positions[id] + delta;
      var maxPos := maxPositions[id];
      if projected > maxPos || projected < -maxPos { return false; }
      if cashEnabled && side == Bid {
        if qty * ToDouble(price, tick) > cash[id] { return false; }
      }
      return true;
    }

    method OnFill(id: nat, r: Report)
      requires Valid()
      modifies positions, cash
      ensures id < MAX_SYMBOLS && cashEnabled ==> Account(id) == Settle(old(Account(id)), r, tick)
      ensures id < MAX_SYMBOLS && !cashEnabled ==>
        Account(id) == old(Account(id)).(position := Settle(old(Account(id)), r, tick).position)
      ensures forall x :: 0 <= x < MAX_SYMBOLS && x != id ==> Account(x) == old(Account(x))
    {
      if !r.isFill || id >= MAX_SYMBOLS { return; }
      var signedQty := r.qty * (if r.side == Bid then 1.0 else -1.0);
      assert signedQty == Signed(r.side, r.qty);
      positions[id] := positions[id] + signedQty;
      if cashEnabled { cash[id] := cash[id] - signedQty * ToDouble(r.price, tick); }
    }
  }
}
