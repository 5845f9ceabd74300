/** `CircuitBreaker`: trips on too many rejections in one message window, resets after one without any. */
module CircuitBreaker {
  import opened Words

  datatype Breaker = Breaker(threshold: nat, window: nat, msgs: nat, errors: nat, tripped: bool)

  /** Neither setting is zero: the configuration check. */
  predicate ConfigOk(threshold: nat, window: nat) {
    threshold > 0 && window > 0
  }

  function Fresh(threshold: nat, window: nat): Breaker {
    Breaker(threshold, window, 0, 0, false)
  }

  /** recordMessage(): a window boundary zeroes the error count, and resets the trip if that count already was zero. */
  function RecordMessage(b: Breaker): Breaker {
    if b.window == 0 then b
    else
      var n := b.msgs + 1;
      if n % b.window == 0 then b.(msgs := n, errors := 0, tripped := b.tripped && b.errors != 0)
      else b.(msgs := n)
  }

  function RecordError(b: Breaker): Breaker {
    var e := b.errors + 1;
    b.(errors := e, tripped := b.tripped || e >= b.threshold)
  }

  // ---- runs in the order the runtime makes its calls

  /**
   One message: it is recorded, and then an order that the risk check refuses counts as
   an error, unless the breaker is tripped, which stops orders before the risk check.
   */
  function Message(b: Breaker, refused: bool): Breaker {
    var r := RecordMessage(b);
    if refused && !r.tripped then RecordError(r) else r
  }

  function After(b: Breaker, refusals: seq<bool>): Breaker {
    if refusals == [] then b else Message(After(b, refusals[..|refusals| - 1]), refusals[|refusals| - 1])
  }

  /** The state after message m of a run. */
  function At(b: Breaker, refusals: seq<bool>, m: nat): Breaker
    requires m <= |refusals|
  {
    After(b, refusals[..m])
  }

  /** An order raised by message m meets a tripped breaker. */
  predicate Blocked(b: Breaker, refusals: seq<bool>, m: nat)
    requires 1 <= m <= |refusals|
  {
    RecordMessage(At(b, refusals, m - 1)).tripped
  }

  /** Message m was refused by the risk check and counted. */
  predicate Counted(b: Breaker, refusals: seq<bool>, m: nat)
    requires 1 <= m <= |refusals|
  {
    refusals[m - 1] && !Blocked(b, refusals, m)
  }

  /** The breaker goes from untripped to tripped while handling message n. */
  predicate TripsAt(b: Breaker, refusals: seq<bool>, n: nat)
    requires 1 <= n <= |refusals|
  {
    !Blocked(b, refusals, n) && At(b, refusals, n).tripped
  }

  /** Refusals counted among messages lo .. hi. */
  function CountedIn(b: Breaker, refusals: seq<bool>, lo: nat, hi: nat): nat
    requires 1 <= lo && hi <= |refusals|
    decreases hi
  {
    if hi < lo then 0 else CountedIn(b, refusals, lo, hi - 1) + if Counted(b, refusals, hi) then 1 else 0
  }

  /** First message of the window message n belongs to. */
  function WindowStart(n: nat, window: nat): nat
    requires window > 0
  {
    if n < window then 1 else n - n % window
  }

  lemma AtStep(b: Breaker, refusals: seq<bool>, m: nat)
    requires 1 <= m <= |refusals|
    ensures At(b, refusals, m) == Message(At(b, refusals, m - 1), refusals[m - 1])
  {
    assert refusals[..m][..m - 1] == refusals[..m - 1];
  }

  /** A boundary starts a window; any other message continues the one before it. */
  lemma WindowStep(n: nat, w: nat)
    requires w > 0 && n >= 1
    ensures WindowStart(n, w) == if n % w == 0 then n else if n == 1 then 1 else WindowStart(n - 1, w)
  {
    var q, r := (n - 1) / w, (n - 1) % w;
    assert n - 1 == q * w + r;
    if r + 1 == w {
      assert n == (q + 1) * w + 0;
      ModUnique(n, w, q + 1, 0);
    } else {
      assert n == q * w + (r + 1);
      ModUnique(n, w, q, r + 1);
    }
    if n < w { ModUnique(n, w, 0, n); }
  }

  lemma {:induction false} SettingsStay(t: nat, w: nat, refusals: seq<bool>, n: nat)
    requires ConfigOk(t, w) && n <= |refusals|
    ensures var s := At(Fresh(t, w), refusals, n); s.threshold == t && s.window == w && s.msgs == n
  {
    if n > 0 {
      SettingsStay(t, w, refusals, n - 1);
      AtStep(Fresh(t, w), refusals, n);
    }
  }

  /** The error count is the number of refusals counted in the current window. */
  lemma {:induction false} ErrorsAreCounted(t: nat, w: nat, refusals: seq<bool>, n: nat)
    requires ConfigOk(t, w) && n <= |refusals|
    ensures var s := At(Fresh(t, w), refusals, n);
      && s.errors == CountedIn(Fresh(t, w), refusals, WindowStart(n, w), n)
      && (!s.tripped ==> s.errors < t) && (s.tripped ==> s.errors == t || s.errors == 0)
  {
    var b := Fresh(t, w);
    if n > 0 {
      ErrorsAreCounted(t, w, refusals, n - 1);
      SettingsStay(t, w, refusals, n - 1);
      AtStep(b, refusals, n);
      WindowStep(n, w);
      var lo := WindowStart(n, w);
      assert CountedIn(b, refusals, lo, n) ==
        CountedIn(b, refusals, lo, n - 1) + if Counted(b, refusals, n) then 1 else 0;
      if n % w == 0 { assert CountedIn(b, refusals, n, n - 1) == 0; }
    }
  }

  /** It trips exactly on the refusal that brings one window to the threshold. */
  lemma TripsIffWindowFills(t: nat, w: nat, refusals: seq<bool>, n: nat)
    requires ConfigOk(t, w) && 1 <= n <= |refusals|
    ensures var b := Fresh(t, w);
      TripsAt(b, refusals, n) <==>
        Counted(b, refusals, n) && CountedIn(b, refusals, WindowStart(n, w), n) == t
  {
    var b := Fresh(t, w);
    ErrorsAreCounted(t, w, refusals, n - 1);
    ErrorsAreCounted(t, w, refusals, n);
    SettingsStay(t, w, refusals, n - 1);
    AtStep(b, refusals, n);
  }

  lemma {:induction false} CountedAtMost(b: Breaker, refusals: seq<bool>, lo: nat, hi: nat)
    requires 1 <= lo && hi <= |refusals|
    ensures CountedIn(b, refusals, lo, hi) <= if hi < lo then 0 else hi - lo + 1
    decreases hi
  {
    if hi >= lo { CountedAtMost(b, refusals, lo, hi - 1); }
  }

  /** One refusal per message at most: a threshold above the window length never trips. */
  lemma NeverTripsAboveWindow(t: nat, w: nat, refusals: seq<bool>, n: nat)
    requires ConfigOk(t, w) && t > w && n <= |refusals|
    ensures !At(Fresh(t, w), refusals, n).tripped
  {
    if n > 0 {
      NeverTripsAboveWindow(t, w, refusals, n - 1);
      TripsIffWindowFills(t, w, refusals, n);
      CountedAtMost(Fresh(t, w), refusals, WindowStart(n, w), n);
    }
  }

  /** The message at which a trip at message n ends. */
  function EndOfTrip(n: nat, w: nat): nat
    requires w > 0
  {
    n + 2 * w - n % w
  }

  /** While tripped: errors stand until the first boundary after the trip, and are zero from there on. */
  lemma {:induction false} StaysTripped(t: nat, w: nat, refusals: seq<bool>, n: nat, m: nat)
    requires ConfigOk(t, w) && 1 <= n <= m <= |refusals| && m < EndOfTrip(n, w)
    requires TripsAt(Fresh(t, w), refusals, n)
    ensures var s := At(Fresh(t, w), refusals, m);
      s.tripped && s.errors == if m < n + w - n % w then t else 0
  {
    ErrorsAreCounted(t, w, refusals, n);
    if m == n {
      TripsIffWindowFills(t, w, refusals, n);
    } else {
      StaysTripped(t, w, refusals, n, m - 1);
      SettingsStay(t, w, refusals, m - 1);
      AtStep(Fresh(t, w), refusals, m);
      BoundaryAfter(n, m, w);
    }
  }

  /** Between a message and the end of its trip there is one boundary. */
  lemma BoundaryAfter(n: nat, m: nat, w: nat)
    requires w > 0 && n < m <= EndOfTrip(n, w)
    ensures m % w == 0 <==> m == n + w - n % w || m == EndOfTrip(n, w)
  {
    var q, r := n / w, n % w;
    var k := m - n + r;
    assert n == q * w + r;
    assert m == q * w + k && r < k <= 2 * w;
    if k < w { ModUnique(m, w, q, k); }
    else if k < 2 * w { assert m == (q + 1) * w + (k - w); ModUnique(m, w, q + 1, k - w); }
    else { assert m == (q + 2) * w; ModUnique(m, w, q + 2, 0); }
  }

  /**
   A trip at message n lasts through every message before n + 2w - n mod w, nothing is
   counted meanwhile, and the message at that point untrips before any order is sent:
   more than w and at most 2w messages after the trip.
   */
  lemma TripEnds(t: nat, w: nat, refusals: seq<bool>, n: nat)
    requires ConfigOk(t, w) && 1 <= n <= |refusals|
    requires TripsAt(Fresh(t, w), refusals, n)
    ensures var e := EndOfTrip(n, w);
      && n + w < e <= n + 2 * w
      && (forall m :: n < m < e && m <= |refusals| ==>
            Blocked(Fresh(t, w), refusals, m) && !Counted(Fresh(t, w), refusals, m))
      && (e <= |refusals| ==> !Blocked(Fresh(t, w), refusals, e))
  {
    var b, e := Fresh(t, w), EndOfTrip(n, w);
    forall m | n < m < e && m <= |refusals| ensures Blocked(b, refusals, m) {
      BlockedUntilEnd(t, w, refusals, n, m);
    }
    if e <= |refusals| { BlockedUntilEnd(t, w, refusals, n, e); }
  }

  lemma BlockedUntilEnd(t: nat, w: nat, refusals: seq<bool>, n: nat, m: nat)
    requires ConfigOk(t, w) && 1 <= n < m <= EndOfTrip(n, w) && m <= |refusals|
    requires TripsAt(Fresh(t, w), refusals, n)
    ensures Blocked(Fresh(t, w), refusals, m) <==> m < EndOfTrip(n, w)
  {
    StaysTripped(t, w, refusals, n, m - 1);
    SettingsStay(t, w, refusals, m - 1);
    BoundaryAfter(n, m, w);
  }

  // ---- the class

  class CircuitBreaker {
    const threshold: nat
    const windowMessages: nat
    var msgs: nat
    var errors: nat
    var tripped: bool

    ghost function Value(): Breaker
      reads this
    {
      Breaker(threshold, windowMessages, msgs, errors, tripped)
    }

    constructor (threshold: nat, windowMessages: nat)
      ensures Value() == Fresh(threshold, windowMessages)
    {
      this.threshold := threshold;
      this.windowMessages := windowMessages;
      msgs, errors, tripped := 0, 0, false;
    }

    method OnMessage()
      modifies this
      ensures Value() == RecordMessage(old(Value()))
    {
      if windowMessages == 0 { return; }
      msgs := msgs + 1;
      var n := msgs;
      if n % windowMessages == 0 {
        var e := errors;
        errors := 0;
        if e == 0 { tripped := false; }
      }
    }

    method OnError()
      modifies this
      ensures Value() == RecordError(old(Value()))
    {
      errors := errors + 1;
      if errors >= threshold { tripped := true; }
    }

    method IsTripped() returns (t: bool)
      ensures t == Value().tripped
    {
      t := tripped;
    }
  }
}
