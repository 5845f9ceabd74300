/** Prices in ticks, quantities as exact reals, and the rounding between them. */
module Types {

  datatype Option<+T> = None | Some(value: T)

  datatype Side = Bid | Ask

  function Opposite(s: Side): Side {
    if s == Bid then Ask else Bid
  }

  /** A price in ticks with the quantity resting there. */
  datatype PriceLevel = PriceLevel(ticks: int, qty: real)

  /** Levels the sizer and the fill simulation read from a side. */
  const MAX_BOOK_WALK: nat := 32

  const MAX_SYMBOLS: nat := 64

  /** std::llround: to the nearest integer, halves away from zero. */
  function Llround(x: real): int {
    if x >= 0.0 then (x + 0.5).Floor else -((-x + 0.5).Floor)
  }

  function FromDouble(px: real, tick: real): int
    requires tick > 0.0
  {
    Llround(px / tick)
  }

  function ToDouble(ticks: int, tick: real): real {
    ticks as real * tick
  }

  function Abs(x: real): (r: real)
    ensures r >= 0.0 && (r == x || r == -x)
  {
    if x >= 0.0 then x else -x
  }

  /** Rounding stays between any two integers that enclose its argument. */
  lemma LlroundBetween(x: real, lo: int, hi: int)
    requires lo as real <= x <= hi as real
    ensures lo <= Llround(x) <= hi
  {
  }

  /** Rounding is to a nearest integer, and a half goes away from zero. */
  lemma LlroundNearest(x: real)
    ensures -0.5 <= Llround(x) as real - x <= 0.5
    ensures Llround(x) as real - x == 0.5 ==> x > 0.0
    ensures Llround(x) as real - x == -0.5 ==> x < 0.0
  {
  }

  /** A price in ticks is within half a tick of the price. */
  lemma FromDoubleNearest(px: real, tick: real)
    requires tick > 0.0
    ensures -tick <= 2.0 * (FromDouble(px, tick) as real * tick - px) <= tick
  {
    var q := px / tick;
    LlroundNearest(q);
    assert q * tick == px;
    ScaleWithin(FromDouble(px, tick) as real, q, px, tick);
  }

  lemma ScaleWithin(n: real, q: real, px: real, tick: real)
    requires tick > 0.0 && q * tick == px && -0.5 <= n - q <= 0.5
    ensures -tick <= 2.0 * (n * tick - px) && 2.0 * (n * tick - px) <= tick
  {
    var up, down := 0.5 - (n - q), 0.5 + (n - q);
    ProductAtLeastZero(up, tick);
    ProductAtLeastZero(down, tick);
    assert up * tick == 0.5 * tick - n * tick + q * tick;
    assert down * tick == 0.5 * tick + n * tick - q * tick;
  }

  lemma ProductAtLeastZero(a: real, b: real)
    requires a >= 0.0 && b >= 0.0
    ensures a * b >= 0.0
  {
  }

  lemma DivBetween(x: real, tick: real, lo: int, hi: int)
    requires tick > 0.0
    requires ToDouble(lo, tick) <= x <= ToDouble(hi, tick)
    ensures lo as real <= x / tick <= hi as real
  {
    var q := x / tick;
    assert q * tick == x;
    CancelMul(lo as real, q, tick);
    CancelMul(q, hi as real, tick);
  }

  lemma CancelMul(a: real, b: real, c: real)
    requires c > 0.0 && a * c <= b * c
    ensures a <= b
  {
  }

  /** A price between two tick multiples rounds to a tick between them. */
  lemma FromDoubleBetween(x: real, tick: real, lo: int, hi: int)
    requires tick > 0.0
    requires ToDouble(lo, tick) <= x <= ToDouble(hi, tick)
    ensures lo <= FromDouble(x, tick) <= hi
  {
    DivBetween(x, tick, lo, hi);
    LlroundBetween(x / tick, lo, hi);
  }

  /** Ticks survive the trip through a double price. */
  lemma TickRoundTrip(ticks: int, tick: real)
    requires tick > 0.0
    ensures FromDouble(ToDouble(ticks, tick), tick) == ticks
  {
    FromDoubleBetween(ToDouble(ticks, tick), tick, ticks, ticks);
  }

  lemma ToDoubleMono(a: int, b: int, tick: real)
    requires tick > 0.0
    ensures ToDouble(a, tick) <= ToDouble(b, tick) <==> a <= b
  {
    if a < b {
      assert a as real * tick < b as real * tick;
    } else if b < a {
      assert b as real * tick < a as real * tick;
    }
  }
}
