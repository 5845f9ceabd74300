/** `OrderSizer`: a marketable order sized by walking the opposing side of the book. */
module OrderSizer {
  import opened Types
  import BookSpec
  import opened BookProperties
  import BB = BoundedBook

  /** `Signal`: nothing, or an order to send. */
  datatype Signal = NoSignal | Order(side: Side, price: int, qty: real)

  /** Quantity on the first k levels. */
  function Total(ls: seq<PriceLevel>, k: nat): real
    requires k <= |ls|
  {
    if k == 0 then 0.0 else Total(ls, k - 1) + ls[k - 1].qty
  }

  predicate AllLive(ls: seq<PriceLevel>) {
    forall i :: 0 <= i < |ls| ==> ls[i].qty > 0.0
  }

  /** The fewest leading levels, counted from k, that hold the target, or all of them. */
  function Touched(ls: seq<PriceLevel>, target: real, k: nat): (r: nat)
    requires k <= |ls|
    ensures k <= r <= |ls|
    ensures r < |ls| ==> Total(ls, r) >= target
    ensures forall j :: k <= j < r ==> Total(ls, j) < target
    decreases |ls| - k
  {
    if k == |ls| || Total(ls, k) >= target then k else Touched(ls, target, k + 1)
  }

  function Min(a: real, b: real): real {
    if a < b then a else b
  }

  /** The size of the order: the target, or all the visible quantity when that is less. */
  function SizedQty(ls: seq<PriceLevel>, target: real): real {
    Min(target, Total(ls, |ls|))
  }

  /** Sized to the target as far as the walked levels go, limited at the worst level touched. */
  function SizeOn(ls: seq<PriceLevel>, side: Side, target: real): Signal
  {
    if target <= 0.0 || ls == [] || SizedQty(ls, target) <= 0.0 then NoSignal
    else Order(side, ls[Touched(ls, target, 1) - 1].ticks, SizedQty(ls, target))
  }

  function ComputeOrder(b: BookSpec.Book, side: Side, target: real): Signal
    requires BookSpec.Wf(b)
  {
    SizeOn(Depth(b, Opposite(side), MAX_BOOK_WALK), side, target)
  }

  lemma DepthIsLive(b: BookSpec.Book, side: Side, n: nat)
    requires BookSpec.Wf(b)
    ensures AllLive(Depth(b, side, n))
  {
    DepthSpec(b, side, n);
    var d := Depth(b, side, n);
    forall i | 0 <= i < |d| ensures d[i].qty > 0.0 { assert d[i] in d; }
  }

  lemma {:induction false} TotalPositive(ls: seq<PriceLevel>, k: nat)
    requires AllLive(ls) && 1 <= k <= |ls|
    ensures Total(ls, k) > 0.0
  {
    if k > 1 { TotalPositive(ls, k - 1); }
  }

  lemma {:induction false} TotalMono(ls: seq<PriceLevel>, j: nat, k: nat)
    requires AllLive(ls) && j <= k <= |ls|
    ensures Total(ls, j) <= Total(ls, k)
  {
    if j < k { TotalMono(ls, j, k - 1); }
  }

  /** An order is always found on a non-empty ladder. */
  lemma SizingSucceeds(ls: seq<PriceLevel>, side: Side, target: real)
    requires AllLive(ls)
    ensures SizeOn(ls, side, target).Order? <==> target > 0.0 && ls != []
  {
    if ls != [] { TotalPositive(ls, |ls|); }
  }

  /** What the sizing promises: a positive size no larger than asked, and the walked levels cover it. */
  lemma SizedOrder(ls: seq<PriceLevel>, side: Side, target: real)
    requires AllLive(ls) && SizeOn(ls, side, target).Order?
    ensures var o := SizeOn(ls, side, target);
      var k := Touched(ls, target, 1);
      && 1 <= k <= |ls|
      && o.price == ls[k - 1].ticks
      && 0.0 < o.qty <= target && o.qty <= Total(ls, k)
      && (k > 1 ==> Total(ls, k - 1) < o.qty)
      && (o.qty == target || o.qty == Total(ls, |ls|))
  {
    var k := Touched(ls, target, 1);
    TotalPositive(ls, |ls|);
    if k < |ls| { TotalMono(ls, k, |ls|); }
    if k > 1 { assert ls[k - 1].qty > 0.0; TotalMono(ls, k, |ls|); }
  }

  /** The walk of the source. */
  method ComputeOrderOn(book: BB.BoundedBook, tick: real, side: Side, targetQty: real) returns (s: Signal)
    requires book.Valid() && tick > 0.0
    ensures s == ComputeOrder(book.Value(), side, targetQty)
  {
    if targetQty <= 0.0 { return NoSignal; }
    var liquidity := Opposite(side);
    var levels := new PriceLevel[MAX_BOOK_WALK](_ => PriceLevel(0, 0.0));
    var n := book.Depth(liquidity, levels, MAX_BOOK_WALK);
    DepthIsLive(book.Value(), liquidity, MAX_BOOK_WALK);
    s := WalkLevels(levels[..n], tick, side, targetQty);
  }

  method WalkLevels(ls: seq<PriceLevel>, tick: real, side: Side, targetQty: real) returns (s: Signal)
    requires AllLive(ls) && tick > 0.0 && targetQty > 0.0
    ensures s == SizeOn(ls, side, targetQty)
  {
    var n := |ls|;
    if n == 0 { return NoSignal; }
    var accSize, limitPx := 0.0, 0.0;
    ghost var k := 0;
    for i := 0 to n
      invariant k == i && (i > 0 ==> limitPx == ToDouble(ls[i - 1].ticks, tick))
      invariant accSize == Total(ls, i)
      invariant forall j :: 0 <= j <= i ==> Total(ls, j) < targetQty
    {
      var px := ToDouble(ls[i].ticks, tick);
      var fill := Min(targetQty - accSize, ls[i].qty);
      if fill <= 0.0 { break; }
      accSize := accSize + fill;
      limitPx := px;
      k := k + 1;
      if accSize >= targetQty { break; }
    }
    WalkEnd(ls, targetQty, k, accSize);
    if accSize <= 0.0 { return NoSignal; }
    TickRoundTrip(ls[k - 1].ticks, tick);
    s := Order(side, FromDouble(limitPx, tick), accSize);
  }

  lemma WalkEnd(ls: seq<PriceLevel>, target: real, k: nat, acc: real)
    requires AllLive(ls) && target > 0.0 && 1 <= k <= |ls|
    requires forall j :: 1 <= j < k ==> Total(ls, j) < target
    requires if Total(ls, k) < target then k == |ls| && acc == Total(ls, k) else acc == target
    ensures Touched(ls, target, 1) == k && SizedQty(ls, target) == acc
  {
    TotalMono(ls, k, |ls|);
    var r := Touched(ls, target, 1);
  }
}
