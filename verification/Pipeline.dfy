/**
 The strategy thread as a state machine: one input is one processed market event, or
 an observed reconnect. Theorems here hold over every run and across modules.
 First comes one event, stage by stage: breaker, book, strategy, breaker gate, risk
 check, execution, ledgers. Then the invariant of every run, and on top of it what
 runs do with positions, the two ledgers, the breaker, unsynced books, the smoothed
 signal and the cooldown; then exactly when a run opens a position and what becomes
 of an order; and last the messages that arrive in chunks.
 */
module Pipeline {
  import opened Types
  import BookSpec
  import opened BookProperties
  import opened OrderSizer
  import opened ExecutionEngine
  import opened PnlTracker
  import Tracker = PnlTracker
  import opened RiskManager
  import opened CircuitBreaker
  import opened ImbalanceStrategy
  import opened Feed

  /** `RuntimeConfig`, and the checks made when it is loaded. */
  datatype Config = Config(
    cap: nat, params: Params, tick: real, maxPosition: real, initialCash: real, threshold: nat, window: nat)

  predicate ConfigChecked(c: Config) {
    && BookSpec.CapacityOk(c.cap)
    && ParamsOk(c.params)
    && c.tick > 0.0 && c.maxPosition > 0.0 && c.initialCash >= 0.0
    && ConfigOk(c.threshold, c.window)
  }

  /** `MarketEvent`; snapshot prices are ticks already, update prices still doubles. */
  datatype Event =
    | Snapshot(bids: seq<PriceLevel>, asks: seq<PriceLevel>)
    | L2Update(changes: seq<Change>)
    | Heartbeat

  /** One turn of the strategy loop: an event processed at a time, or a reconnect observed. */
  datatype Input = Process(ev: Event, now: int) | Reconnect

  /** Prices of live levels are positive. */
  predicate InputOk(c: Config, i: Input)
    requires c.tick > 0.0
  {
    match i
    case Process(Snapshot(bids, asks), _) => PositiveLevels(bids) && PositiveLevels(asks)
    case Process(L2Update(cs), _) => PositiveChanges(cs, c.tick)
    case _ => true
  }

  predicate PositiveLevels(ls: seq<PriceLevel>) {
    forall k :: 0 <= k < |ls| && ls[k].qty > 0.0 ==> ls[k].ticks > 0
  }

  predicate PositiveChanges(cs: seq<Change>, tick: real)
    requires tick > 0.0
  {
    forall k :: 0 <= k < |cs| && cs[k].qty > 0.0 ==> FromDouble(cs[k].px, tick) > 0
  }

  datatype Counters = Counters(
    signals: nat, sent: nat, blocked: nat, rejected: nat, approved: nat, fills: nat, partials: nat, preSnapshot: nat)

  datatype Engine = Engine(
    book: BookSpec.Book, ready: bool, strategy: Strategy, risk: Risk, breaker: Breaker, nextId: nat, counters: Counters)

  function Start(c: Config): Engine
    requires ConfigChecked(c)
  {
    Engine(
      BookSpec.Empty(c.cap), false,
      Strategy(Ring(seq(MAX_ROLLING, _ => 0.0), 0, 0), Seeded(c.initialCash), 0, false),
      Risk(0.0, c.maxPosition, c.initialCash),
      Fresh(c.threshold, c.window),
      1, Counters(0, 0, 0, 0, 0, 0, 0, 0))
  }

  // ---- one event, stage by stage

  /** What must hold for an event to be processed at all: set up at the start, kept by every input. */
  predicate Ready(c: Config, e: Engine) {
    && ConfigChecked(c)
    && BookSpec.Wf(e.book) && PositiveTicks(e.book)
    && RingOk(c.params, e.strategy.ring)
    && EntryOk(e.strategy.pnl)
  }

  /** The event gets past the book stage to the strategy. */
  predicate Reaches(e: Engine, ev: Event) {
    ev.Snapshot? || (ev.L2Update? && e.ready)
  }

  /** The book after the event. */
  function BookAfter(c: Config, e: Engine, ev: Event): (b: BookSpec.Book)
    requires Ready(c, e)
    ensures BookSpec.Wf(b)
  {
    match ev
    case Snapshot(bids, asks) => ApplySnapshot(e.book, bids, asks)
    case L2Update(cs) => if e.ready then ApplyChanges(e.book, cs, c.tick) else e.book
    case Heartbeat => e.book
  }

  predicate EventOk(c: Config, e: Engine, ev: Event)
    requires Ready(c, e)
  {
    PositiveTicks(BookAfter(c, e, ev))
  }

  /** The strategy's answer to the event: its next state and its signal. */
  function Answer(c: Config, e: Engine, ev: Event, now: int): (Strategy, Signal)
    requires Ready(c, e) && EventOk(c, e, ev)
  {
    if Reaches(e, ev) then OnMarket(c.params, c.tick, e.strategy, BookAfter(c, e, ev), now)
    else (e.strategy, NoSignal)
  }

  /** What becomes of the event's order. */
  datatype Outcome = NoOrder | Halted | Rejected | Approved(o: Signal, rpt: Report)

  /** dispatchOrder's decision: breaker first, then the risk check, then the simulated fill. */
  function Dispatch(e: Engine, b: BookSpec.Book, sig: Signal, tick: real): Outcome
    requires sig.Order? && BookSpec.Wf(b)
  {
    if e.breaker.tripped then Halted
    else if !Approves(e.risk, sig.side, sig.price, sig.qty, tick) then Rejected
    else Approved(sig, Simulate(b, sig.side, sig.price, sig.qty))
  }

  /** The order starts from a breaker that has already recorded the message. */
  function OutcomeOf(c: Config, e: Engine, ev: Event, now: int): Outcome
    requires Ready(c, e) && EventOk(c, e, ev)
  {
    var sig := Answer(c, e, ev, now).1;
    if sig.NoSignal? then NoOrder
    else Dispatch(e.(breaker := RecordMessage(e.breaker)), BookAfter(c, e, ev), sig, c.tick)
  }

  /** The counters dispatchOrder bumps. */
  function TallyDispatch(k: Counters, out: Outcome): Counters {
    var k1 := k.(sent := k.sent + 1);
    match out
    case NoOrder => k1
    case Halted => k1.(blocked := k1.blocked + 1)
    case Rejected => k1.(rejected := k1.rejected + 1)
    case Approved(o, rpt) => TallyApproved(k1, o, rpt)
  }

  function TallyApproved(k: Counters, o: Signal, rpt: Report): Counters {
    var k1 := k.(approved := k.approved + 1);
    if !rpt.isFill then k1
    else k1.(fills := k1.fills + 1,
             partials := k1.partials + if o.Order? && rpt.qty < o.qty - DUST then 1 else 0)
  }

  /** The fill of an approved order in both ledgers. */
  function Filled(e: Engine, rpt: Report, tick: real): Engine {
    e.(strategy := e.strategy.(pnl := AfterFill(e.strategy.pnl, rpt, tick)), risk := Settle(e.risk, rpt, tick))
  }

  /** The state after dispatchOrder came to an outcome. */
  function Dispatched(e: Engine, out: Outcome, tick: real): Engine {
    var e1 := e.(nextId := e.nextId + 1, counters := TallyDispatch(e.counters, out));
    match out
    case Rejected => e1.(breaker := RecordError(e1.breaker))
    case Approved(_, rpt) => Filled(e1, rpt, tick)
    case _ => e1
  }

  /** The state when the strategy has answered and before any order is dispatched. */
  function Answered(c: Config, e: Engine, ev: Event, now: int): Engine
    requires Ready(c, e) && EventOk(c, e, ev)
  {
    e.(book := BookAfter(c, e, ev),
       ready := e.ready || ev.Snapshot?,
       strategy := Answer(c, e, ev, now).0,
       breaker := RecordMessage(e.breaker),
       counters := if ev.L2Update? && !e.ready then e.counters.(preSnapshot := e.counters.preSnapshot + 1) else e.counters)
  }

  function CountSignal(e: Engine): Engine {
    e.(counters := e.counters.(signals := e.counters.signals + 1))
  }

  /** processEvent */
  function ProcessEvent(c: Config, e: Engine, ev: Event, now: int): Engine
    requires Ready(c, e) && EventOk(c, e, ev)
  {
    var e1, out := Answered(c, e, ev, now), OutcomeOf(c, e, ev, now);
    if out.NoOrder? then e1 else Dispatched(CountSignal(e1), out, c.tick)
  }

  function OnInput(c: Config, e: Engine, i: Input): Engine
    requires Ready(c, e) && (i.Process? ==> EventOk(c, e, i.ev))
  {
    match i
    case Process(ev, now) => ProcessEvent(c, e, ev, now)
    case Reconnect => e.(ready := false, strategy := OnReconnect(e.strategy))
  }

  // ---- positive prices stay positive

  lemma {:induction false} FeedKeepsPositive(b: BookSpec.Book, side: Side, ls: seq<PriceLevel>)
    requires BookSpec.Wf(b) && PositiveTicks(b) && PositiveLevels(ls)
    ensures PositiveTicks(FeedSide(b, side, ls))
  {
    if ls != [] {
      var l := ls[|ls| - 1];
      FeedKeepsPositive(b, side, ls[..|ls| - 1]);
      UpdateKeepsPositive(FeedSide(b, side, ls[..|ls| - 1]), side, l.ticks, l.qty);
    }
  }

  lemma {:induction false} ChangesKeepPositive(b: BookSpec.Book, cs: seq<Change>, tick: real)
    requires tick > 0.0 && BookSpec.Wf(b) && PositiveTicks(b) && PositiveChanges(cs, tick)
    ensures PositiveTicks(ApplyChanges(b, cs, tick))
  {
    if cs != [] {
      var x := cs[|cs| - 1];
      ChangesKeepPositive(b, cs[..|cs| - 1], tick);
      UpdateKeepsPositive(ApplyChanges(b, cs[..|cs| - 1], tick), x.side, FromDouble(x.px, tick), x.qty);
    }
  }

  lemma UpdateKeepsPositive(b: BookSpec.Book, s: Side, t: int, q: real)
    requires BookSpec.Wf(b) && PositiveTicks(b) && (q > 0.0 ==> t > 0)
    ensures PositiveTicks(BookSpec.Update(b, s, t, q))
  {
    var r := BookSpec.Update(b, s, t, q);
    forall side, x | x in BookSpec.Levels(r, side) ensures x > 0 {
      UpdateShows(b, s, t, q, side);
      assert x in BookSpec.Levels(b, side) || (x == t && q > 0.0);
    }
  }

  lemma ClearedIsPositive(b: BookSpec.Book, bids: seq<PriceLevel>, asks: seq<PriceLevel>)
    requires BookSpec.Wf(b)
    ensures PositiveTicks(Anchored(b, bids, asks))
  {
    forall side ensures BookSpec.Levels(Anchored(b, bids, asks), side) == map[] {
      LevelsOfEmptySlots(Anchored(b, bids, asks), side);
    }
  }

  lemma EventsKeepPositive(c: Config, e: Engine, i: Input)
    requires Ready(c, e) && InputOk(c, i) && i.Process?
    ensures EventOk(c, e, i.ev)
  {
    match i.ev
    case Snapshot(bids, asks) =>
      var a := Anchored(e.book, bids, asks);
      ClearedIsPositive(e.book, bids, asks);
      FeedKeepsPositive(a, Bid, bids);
      FeedKeepsPositive(FeedSide(a, Bid, bids), Ask, asks);
    case L2Update(cs) => if e.ready { ChangesKeepPositive(e.book, cs, c.tick); }
    case Heartbeat =>
  }

  // ---- what an approved order does

  /** The limit of a sized order is the price of a level of the book. */
  lemma LimitIsALevel(b: BookSpec.Book, side: Side, target: real)
    requires BookSpec.Wf(b) && PositiveTicks(b) && ComputeOrder(b, side, target).Order?
    ensures ComputeOrder(b, side, target).price > 0
  {
    var ls := Depth(b, Opposite(side), MAX_BOOK_WALK);
    DepthIsLive(b, Opposite(side), MAX_BOOK_WALK);
    SizedOrder(ls, side, target);
    DepthSpec(b, Opposite(side), MAX_BOOK_WALK);
    assert ls[Touched(ls, target, 1) - 1] in ls;
  }

  /** A fill of an order the strategy sized on the same book. */
  predicate GoodFill(e: Engine, o: Signal, rpt: Report, tick: real) {
    && o.Order? && rpt.isFill && rpt.side == o.side
    && 0.0 < rpt.qty <= o.qty && rpt.qty >= o.qty - DUST
    && rpt.price > 0
    && (e.strategy.pnl.position > 0.0 ==> o.side == Ask && o.qty <= e.strategy.pnl.position)
    && (e.strategy.pnl.position < 0.0 ==> o.side == Bid && o.qty <= -e.strategy.pnl.position)
  }

  /** Every approved order fills completely but for dust, at a positive price, and never overshoots flat. */
  lemma ApprovedOrdersFill(c: Config, e: Engine, ev: Event, now: int)
    requires Ready(c, e) && EventOk(c, e, ev) && WithinLimits(e.risk)
    ensures var out := OutcomeOf(c, e, ev, now);
      out.Approved? ==> GoodFill(e, out.o, out.rpt, c.tick) && WithinLimits(Settle(e.risk, out.rpt, c.tick))
  {
    var b := BookAfter(c, e, ev);
    var out := OutcomeOf(c, e, ev, now);
    if !out.Approved? { return; }
    var o := out.o;
    SignalPurpose(c.params, c.tick, e.strategy, b, now);
    var want := Decide(c.params, c.tick, e.strategy, b, now).1;
    SizedOrderFills(b, want.side, want.target);
    LimitIsALevel(b, want.side, want.target);
    FillBounds(b, o.side, o.price, o.qty);
    var best := Top(b, Opposite(o.side)).value.ticks;
    TouchIsPositive(b, Opposite(o.side));
    ApprovedFillStaysWithin(e.risk, o.side, o.price, o.qty, out.rpt, best, c.tick);
  }

  /** A position is zero or more than dust. */
  predicate NoDust(s: Pnl) {
    s.position == 0.0 || Abs(s.position) > DUST
  }

  /** A good fill opens from flat, or shrinks the position without crossing zero. */
  lemma GoodFillOneWay(e: Engine, o: Signal, rpt: Report, tick: real)
    requires GoodFill(e, o, rpt, tick) && tick > 0.0
    requires EntryOk(e.strategy.pnl) && NoDust(e.strategy.pnl)
    ensures var s, q := e.strategy.pnl, Signed(rpt.side, rpt.qty);
      var r := AfterFill(s, rpt, tick);
      && !Flips(s.position, q)
      && EntryOk(r) && NoDust(r)
      && (s.position == 0.0 && r.position != 0.0 ==>
            r.position == q && r.avgEntry == ToDouble(rpt.price, tick))
      && (s.position != 0.0 ==> Abs(r.position) < Abs(s.position))
      && (s.position > 0.0 ==> r.position >= 0.0) && (s.position < 0.0 ==> r.position <= 0.0)
      && (s.position != 0.0 && r.position != 0.0 ==> r.avgEntry == s.avgEntry)
  {
    var s := e.strategy.pnl;
    var q := Signed(rpt.side, rpt.qty);
    ToDoubleMono(rpt.price, 0, tick);
    if s.position == 0.0 { OpeningEntry(s.avgEntry, q, ToDouble(rpt.price, tick)); }
  }

  lemma OpeningEntry(avg: real, q: real, px: real)
    requires q != 0.0
    ensures BlendedEntry(0.0, avg, q, px) == if Abs(q) > DUST then px else 0.0
  {
    assert avg * Abs(0.0) == 0.0;
    if Abs(q) > DUST { assert (px * Abs(q)) / Abs(q) == px; }
  }

  // ---- the invariant of every run

  predicate Balanced(k: Counters) {
    && k.signals == k.sent == k.blocked + k.rejected + k.approved
    && k.fills == k.approved
    && k.partials == 0
  }

  predicate Inv(c: Config, e: Engine) {
    && Ready(c, e)
    && NoDust(e.strategy.pnl)
    && WithinLimits(e.risk) && e.risk.maxPosition == c.maxPosition
    && e.risk.cash == e.strategy.pnl.cash
    && Balanced(e.counters)
    && e.nextId == e.counters.sent + 1
  }

  lemma StartOk(c: Config)
    requires ConfigChecked(c)
    ensures Inv(c, Start(c))
  {
    forall side ensures BookSpec.Levels(BookSpec.Empty(c.cap), side) == map[] {
      LevelsOfEmptySlots(BookSpec.Empty(c.cap), side);
    }
  }

  lemma InputKeeps(c: Config, e: Engine, i: Input)
    requires Inv(c, e) && InputOk(c, i)
    ensures i.Process? ==> EventOk(c, e, i.ev)
    ensures Inv(c, OnInput(c, e, i))
  {
    if i.Process? {
      EventsKeepPositive(c, e, i);
      EventKeeps(c, e, i.ev, i.now);
    }
  }

  lemma AnsweredKeeps(c: Config, e: Engine, ev: Event, now: int)
    requires Inv(c, e) && EventOk(c, e, ev)
    ensures Inv(c, Answered(c, e, ev, now)) && Answered(c, e, ev, now).strategy.pnl == e.strategy.pnl
  {
  }

  lemma DispatchedKeeps(c: Config, e: Engine, out: Outcome)
    requires Inv(c, e) && !out.NoOrder?
    requires out.Approved? ==>
      GoodFill(e, out.o, out.rpt, c.tick) && WithinLimits(Settle(e.risk, out.rpt, c.tick))
    ensures Inv(c, Dispatched(CountSignal(e), out, c.tick))
  {
    TallyBalances(e.counters, out);
    if out.Approved? {
      TallyFill(e.counters, out.o, out.rpt);
      GoodFillOneWay(e, out.o, out.rpt, c.tick);
      SameCash(e.strategy.pnl, e.risk, out.rpt, c.tick);
      hide AfterFill, GoodFill, TallyDispatch;
    }
  }

  lemma EventKeeps(c: Config, e: Engine, ev: Event, now: int)
    requires Inv(c, e) && EventOk(c, e, ev)
    ensures Inv(c, ProcessEvent(c, e, ev, now))
  {
    var e1, out := Answered(c, e, ev, now), OutcomeOf(c, e, ev, now);
    assert ProcessEvent(c, e, ev, now) == if out.NoOrder? then e1 else Dispatched(CountSignal(e1), out, c.tick);
    hide *;
    AnsweredKeeps(c, e, ev, now);
    FillKeeps(c, e, ev, now);
    if !out.NoOrder? { DispatchedKeeps(c, e1, out); }
  }

  lemma FillKeeps(c: Config, e: Engine, ev: Event, now: int)
    requires Inv(c, e) && EventOk(c, e, ev)
    ensures var e1, out := Answered(c, e, ev, now), OutcomeOf(c, e, ev, now);
      out.Approved? ==> GoodFill(e1, out.o, out.rpt, c.tick) && WithinLimits(Settle(e1.risk, out.rpt, c.tick))
  {
    ApprovedOrdersFill(c, e, ev, now);
  }

  lemma SameCash(s: Pnl, k: Risk, rpt: Report, tick: real)
    requires k.cash == s.cash
    ensures Settle(k, rpt, tick).cash == AfterFill(s, rpt, tick).cash
  {
  }

  lemma TallyBalances(k: Counters, out: Outcome)
    requires Balanced(k)
    ensures !out.Approved? && !out.NoOrder? ==> Balanced(TallyDispatch(k.(signals := k.signals + 1), out))
    ensures TallyDispatch(k.(signals := k.signals + 1), out).sent == k.sent + 1
  {
  }

  /** A complete fill never counts as partial. */
  lemma TallyFill(k: Counters, o: Signal, rpt: Report)
    requires Balanced(k) && o.Order? && rpt.isFill && rpt.qty >= o.qty - DUST
    ensures Balanced(TallyDispatch(k.(signals := k.signals + 1), Approved(o, rpt)))
  {
  }

  /** The engine after a run of inputs, with what holds after every run. */
  function Run(c: Config, ins: seq<Input>): (e: Engine)
    requires ConfigChecked(c) && forall k :: 0 <= k < |ins| ==> InputOk(c, ins[k])
    ensures Inv(c, e)
  {
    if ins == [] then StartOk(c); Start(c)
    else
      var before, i := Run(c, ins[..|ins| - 1]), ins[|ins| - 1];
      InputKeeps(c, before, i);
      OnInput(c, before, i)
  }

  predicate RunOk(c: Config, ins: seq<Input>) {
    ConfigChecked(c) && forall k :: 0 <= k < |ins| ==> InputOk(c, ins[k])
  }

  /**
   Risk limits over every run: the position never exceeds max_position in size and the
   cash of the risk ledger never goes negative.
   */
  lemma LimitsHold(c: Config, ins: seq<Input>)
    requires RunOk(c, ins)
    ensures var r := Run(c, ins).risk; -c.maxPosition <= r.position <= c.maxPosition && r.cash >= 0.0
  {
    assert Inv(c, Run(c, ins));
  }

  /** Every approved order fills, none partially, and every order sent is accounted for. */
  lemma OrdersAreAccountedFor(c: Config, ins: seq<Input>)
    requires RunOk(c, ins)
    ensures var k := Run(c, ins).counters;
      k.fills == k.approved && k.partials == 0 && k.sent == k.blocked + k.rejected + k.approved
  {
    assert Inv(c, Run(c, ins));
  }

  /** What the last input of a run came to. */
  function LastOutcome(c: Config, ins: seq<Input>): Outcome
    requires RunOk(c, ins)
  {
    if ins == [] || ins[|ins| - 1].Reconnect? then NoOrder
    else
      var e, i := Run(c, ins[..|ins| - 1]), ins[|ins| - 1];
      InputKeeps(c, e, i);
      OutcomeOf(c, e, i.ev, i.now)
  }

  /** The last event of a run, as one step from the run before it. */
  lemma {:induction false} LastEvent(c: Config, ins: seq<Input>)
    requires RunOk(c, ins) && ins != [] && ins[|ins| - 1].Process?
    ensures var e, i := Run(c, ins[..|ins| - 1]), ins[|ins| - 1];
      && Ready(c, e) && EventOk(c, e, i.ev)
      && Run(c, ins) == ProcessEvent(c, e, i.ev, i.now)
      && LastOutcome(c, ins) == OutcomeOf(c, e, i.ev, i.now)
  {
    InputKeeps(c, Run(c, ins[..|ins| - 1]), ins[|ins| - 1]);
  }

  /** What processing an event does outside the ledgers: book, readiness, ring and breaker. */
  lemma StageOf(c: Config, e: Engine, ev: Event, now: int)
    requires Ready(c, e) && EventOk(c, e, ev)
    ensures var r, told := ProcessEvent(c, e, ev, now), RecordMessage(e.breaker);
      && r.book == BookAfter(c, e, ev)
      && r.ready == (e.ready || ev.Snapshot?)
      && r.strategy.ring == Answer(c, e, ev, now).0.ring
      && r.breaker == if OutcomeOf(c, e, ev, now).Rejected? then RecordError(told) else told
  {
  }

  /** What one input does to the two ledgers. */
  predicate LedgerStep(e: Engine, r: Engine, out: Outcome, tick: real) {
    if out.Approved? then
      && GoodFill(e, out.o, out.rpt, tick)
      && r.strategy.pnl == AfterFill(e.strategy.pnl, out.rpt, tick)
      && r.risk == Settle(e.risk, out.rpt, tick)
    else r.strategy.pnl == e.strategy.pnl && r.risk == e.risk
  }

  lemma {:induction false} RunStep(c: Config, ins: seq<Input>)
    requires RunOk(c, ins) && ins != []
    ensures LedgerStep(Run(c, ins[..|ins| - 1]), Run(c, ins), LastOutcome(c, ins), c.tick)
  {
    if ins[|ins| - 1].Process? { ProcessLedgers(c, ins); } else { ReconnectLedgers(c, ins); }
    hide *;
  }

  lemma {:induction false} ProcessLedgers(c: Config, ins: seq<Input>)
    requires RunOk(c, ins) && ins != [] && ins[|ins| - 1].Process?
    ensures LedgerStep(Run(c, ins[..|ins| - 1]), Run(c, ins), LastOutcome(c, ins), c.tick)
  {
    var e, i := Run(c, ins[..|ins| - 1]), ins[|ins| - 1];
    LastEvent(c, ins);
    EventLedgers(c, e, i.ev, i.now);
    hide Run, ProcessEvent, OutcomeOf, LastOutcome, Inv, GoodFill, AfterFill, Settle;
  }

  lemma {:induction false} ReconnectLedgers(c: Config, ins: seq<Input>)
    requires RunOk(c, ins) && ins != [] && ins[|ins| - 1].Reconnect?
    ensures LedgerStep(Run(c, ins[..|ins| - 1]), Run(c, ins), LastOutcome(c, ins), c.tick)
  {
  }

  lemma EventLedgers(c: Config, e: Engine, ev: Event, now: int)
    requires Inv(c, e) && EventOk(c, e, ev)
    ensures LedgerStep(e, ProcessEvent(c, e, ev, now), OutcomeOf(c, e, ev, now), c.tick)
  {
    ApprovedOrdersFill(c, e, ev, now);
  }

  // ---- one position at a time

  /** The price, in money, of the last fill that opened a position from flat. */
  function OpeningPrice(c: Config, ins: seq<Input>): real
    requires RunOk(c, ins)
  {
    if ins == [] then 0.0
    else
      var before := ins[..|ins| - 1];
      var out := LastOutcome(c, ins);
      if out.Approved? && Run(c, before).strategy.pnl.position == 0.0 then ToDouble(out.rpt.price, c.tick)
      else OpeningPrice(c, before)
  }

  /** What is left of a position does not cross zero. */
  predicate SameSide(before: real, after: real) {
    (before > 0.0 ==> after >= 0.0) && (before < 0.0 ==> after <= 0.0)
  }

  /** The position change one input may cause. */
  predicate OneWay(s: Pnl, r: Pnl, out: Outcome, tick: real) {
    if !out.Approved? then r == s
    else
      && !Flips(s.position, Signed(out.rpt.side, out.rpt.qty))
      && (s.position == 0.0 && r.position != 0.0 ==> r.avgEntry == ToDouble(out.rpt.price, tick) > 0.0)
      && (s.position != 0.0 ==> Abs(r.position) < Abs(s.position) && SameSide(s.position, r.position))
      && (s.position != 0.0 && r.position != 0.0 ==> r.avgEntry == s.avgEntry)
  }

  lemma OneWayStep(c: Config, e: Engine, r: Engine, out: Outcome)
    requires Inv(c, e) && LedgerStep(e, r, out, c.tick)
    ensures OneWay(e.strategy.pnl, r.strategy.pnl, out, c.tick)
  {
    if out.Approved? {
      GoodFillOneWay(e, out.o, out.rpt, c.tick);
      ToDoubleMono(out.rpt.price, 0, c.tick);
    }
  }

  /**
   In every run a position opens only from flat, and every later fill shrinks it without
   crossing zero, so the flip branch of the tracker is never taken.
   */
  lemma {:induction false} OnePositionAtATime(c: Config, ins: seq<Input>)
    requires RunOk(c, ins) && ins != []
    ensures OneWay(
      Run(c, ins[..|ins| - 1]).strategy.pnl, Run(c, ins).strategy.pnl, LastOutcome(c, ins), c.tick)
  {
    RunStep(c, ins);
    OneWayStep(c, Run(c, ins[..|ins| - 1]), Run(c, ins), LastOutcome(c, ins));
  }

  /** While a position is held its average entry is the price of the fill that opened it, and positive. */
  lemma {:induction false} EntryIsOpeningPrice(c: Config, ins: seq<Input>)
    requires RunOk(c, ins)
    ensures HeldAt(Run(c, ins).strategy.pnl, OpeningPrice(c, ins))
  {
    if ins != [] {
      var before := ins[..|ins| - 1];
      EntryIsOpeningPrice(c, before);
      OnePositionAtATime(c, ins);
      HeldStep(Run(c, before).strategy.pnl, Run(c, ins).strategy.pnl, LastOutcome(c, ins), c.tick, OpeningPrice(c, before));
    }
  }

  predicate HeldAt(s: Pnl, px: real) {
    s.position != 0.0 ==> s.avgEntry == px > 0.0
  }

  lemma HeldStep(s: Pnl, r: Pnl, out: Outcome, tick: real, px: real)
    requires HeldAt(s, px) && OneWay(s, r, out, tick)
    ensures HeldAt(r, if out.Approved? && s.position == 0.0 then ToDouble(out.rpt.price, tick) else px)
  {
  }

  // ---- the two ledgers

  /** The trades a run booked, as the tracker saw them. */
  function Trades(c: Config, ins: seq<Input>): seq<Trade>
    requires RunOk(c, ins)
  {
    if ins == [] then []
    else
      var out := LastOutcome(c, ins);
      Trades(c, ins[..|ins| - 1]) +
      if out.Approved? then [TradeOf(out.rpt, c.tick)] else []
  }

  function TradeOf(rpt: Report, tick: real): Trade {
    Trade(Signed(rpt.side, rpt.qty), ToDouble(rpt.price, tick))
  }

  /** Trades whose remainder the tracker rounded to flat. */
  function SnapCount(seed: real, ts: seq<Trade>): nat {
    if ts == [] then 0
    else
      SnapCount(seed, ts[..|ts| - 1]) +
      if Snaps(Tracker.Run(seed, ts[..|ts| - 1]), ts[|ts| - 1].q) then 1 else 0
  }

  /**
   The risk ledger and the tracker, updated independently, agree over every run: cash
   exactly, positions to within 1e-12 for each position rounded to flat so far.
   */
  lemma {:induction false} LedgersAgree(c: Config, ins: seq<Input>)
    requires RunOk(c, ins)
    ensures Agree(c, Run(c, ins), Trades(c, ins))
  {
    if ins != [] {
      var before := ins[..|ins| - 1];
      LedgersAgree(c, before);
      RunStep(c, ins);
      AgreeStep(c, Run(c, before), Run(c, ins), LastOutcome(c, ins), Trades(c, before), Trades(c, ins));
    }
  }

  predicate Agree(c: Config, e: Engine, ts: seq<Trade>) {
    && e.strategy.pnl == Tracker.Run(c.initialCash, ts)
    && e.risk.cash == e.strategy.pnl.cash
    && Abs(e.risk.position - e.strategy.pnl.position) <= DustOf(SnapCount(c.initialCash, ts) as real)
  }

  lemma {:induction false} AgreeStep(c: Config, e: Engine, r: Engine, out: Outcome, ts: seq<Trade>, us: seq<Trade>)
    requires Agree(c, e, ts) && LedgerStep(e, r, out, c.tick)
    requires us == ts + if out.Approved? then [TradeOf(out.rpt, c.tick)] else []
    ensures Agree(c, r, us)
  {
    if out.Approved? {
      assert us[..|us| - 1] == ts && us[|us| - 1] == TradeOf(out.rpt, c.tick);
      var n := SnapCount(c.initialCash, ts);
      TradeAgrees(e.strategy.pnl, e.risk, out.rpt, c.tick, n);
      assert SnapCount(c.initialCash, us) ==
        n + if Snaps(e.strategy.pnl, Signed(out.rpt.side, out.rpt.qty)) then 1 else 0;
    } else {
      assert us == ts;
    }
  }

  /** One fill booked in both ledgers. */
  lemma TradeAgrees(s: Pnl, k: Risk, rpt: Report, tick: real, snaps: nat)
    requires rpt.isFill && k.cash == s.cash && Abs(k.position - s.position) <= DustOf(snaps as real)
    ensures var q := Signed(rpt.side, rpt.qty);
      var n := snaps + if Snaps(s, q) then 1 else 0;
      && Settle(k, rpt, tick).cash == AfterFill(s, rpt, tick).cash
      && Abs(Settle(k, rpt, tick).position - AfterFill(s, rpt, tick).position) <= DustOf(n as real)
  {
    SameCash(s, k, rpt, tick);
    PositionAfter(s, Signed(rpt.side, rpt.qty), ToDouble(rpt.price, tick));
    hide Traded;
    DriftStep(k.position, s.position, Signed(rpt.side, rpt.qty), snaps);
  }

  lemma PositionAfter(s: Pnl, q: real, px: real)
    ensures Traded(s, q, px).position == if Abs(s.position + q) <= DUST then 0.0 else s.position + q
  {
  }

  /** A trade moves both positions alike, but for what the tracker rounds away. */
  lemma DriftStep(risk: real, tracked: real, q: real, snaps: nat)
    requires Abs(risk - tracked) <= DustOf(snaps as real)
    ensures var n := tracked + q;
      var kept := if Abs(n) <= DUST then 0.0 else n;
      var snapped := n != 0.0 && Abs(n) <= DUST;
      Abs((risk + q) - kept) <= DustOf((snaps + if snapped then 1 else 0) as real)
  {
  }

  /** Over every run, equity at any mark is the initial cash plus realized plus unrealized profit, up to the snaps. */
  lemma RunEquity(c: Config, ins: seq<Input>, mark: real)
    requires RunOk(c, ins)
    ensures EquityWithin(Run(c, ins).strategy.pnl, mark, c.initialCash, RunBudget(c.initialCash, Trades(c, ins)))
  {
    LedgersAgree(c, ins);
    EquityIsSeedPlusProfit(c.initialCash, Trades(c, ins), mark);
  }

  // ---- the circuit breaker in the pipeline

  /** For each message of a run, whether its order was refused by the risk check. */
  function Refusals(c: Config, ins: seq<Input>): seq<bool>
    requires RunOk(c, ins)
  {
    if ins == [] then []
    else
      Refusals(c, ins[..|ins| - 1]) + if ins[|ins| - 1].Process? then [LastOutcome(c, ins).Rejected?] else []
  }

  lemma {:induction false} BreakerRuns(c: Config, ins: seq<Input>)
    requires RunOk(c, ins)
    ensures Run(c, ins).breaker == After(Fresh(c.threshold, c.window), Refusals(c, ins))
  {
    if ins != [] {
      var before := ins[..|ins| - 1];
      BreakerRuns(c, before);
      var e, i := Run(c, before), ins[|ins| - 1];
      if i.Process? {
        var rs, x := Refusals(c, before), LastOutcome(c, ins).Rejected?;
        LastEvent(c, ins);
        StageOf(c, e, i.ev, i.now);
        hide Run, ProcessEvent, OutcomeOf, LastOutcome, Inv, BookAfter, RecordMessage, RecordError;
        assert (rs + [x])[..|rs|] == rs;
      } else {
        InputKeeps(c, e, i);
        assert Refusals(c, ins) == Refusals(c, before);
      }
    }
  }

  /**
   After a trip at message n no order is approved, refused or filled before message
   n + 2W - n mod W, however many reconnects fall in between.
   */
  lemma TripHaltsOrders(c: Config, ins: seq<Input>, n: nat)
    requires RunOk(c, ins) && ins != [] && ins[|ins| - 1].Process?
    requires var rs := Refusals(c, ins);
      1 <= n < |rs| < EndOfTrip(n, c.window) && TripsAt(Fresh(c.threshold, c.window), rs, n)
    ensures LastOutcome(c, ins).NoOrder? || LastOutcome(c, ins).Halted?
    ensures var s, r := Run(c, ins[..|ins| - 1]), Run(c, ins); r.strategy.pnl == s.strategy.pnl && r.risk == s.risk
  {
    var before, rs := ins[..|ins| - 1], Refusals(c, ins);
    InputKeeps(c, Run(c, before), ins[|ins| - 1]);
    BreakerRuns(c, before);
    TripEnds(c.threshold, c.window, rs, n);
    assert Blocked(Fresh(c.threshold, c.window), rs, |rs|);
    assert rs[..|rs| - 1] == Refusals(c, before);
    RunStep(c, ins);
  }

  // ---- nothing happens on an unsynced book

  /** A snapshot has been processed since the start and since the last observed reconnect. */
  predicate Synced(ins: seq<Input>) {
    ins != [] &&
    match ins[|ins| - 1]
    case Reconnect => false
    case Process(ev, _) => ev.Snapshot? || Synced(ins[..|ins| - 1])
  }

  /** In every run the book is ready exactly when a snapshot has followed the last observed reconnect. */
  lemma {:induction false} ReadyIffSynced(c: Config, ins: seq<Input>)
    requires RunOk(c, ins)
    ensures Run(c, ins).ready <==> Synced(ins)
  {
    if ins != [] {
      ReadyIffSynced(c, ins[..|ins| - 1]);
      var e, i := Run(c, ins[..|ins| - 1]), ins[|ins| - 1];
      if i.Process? {
        LastEvent(c, ins);
        StageOf(c, e, i.ev, i.now);
        hide ProcessEvent, OutcomeOf, Inv;
      } else {
        InputKeeps(c, e, i);
      }
    }
  }

  /** What an event on an unsynced book may do: nothing to the book, the strategy or the order flow. */
  predicate Ignored(e: Engine, r: Engine, out: Outcome) {
    out.NoOrder? && r.book == e.book && r.strategy == e.strategy
  }

  /**
   In every run, before some snapshot and between an observed reconnect and the next
   snapshot, no update is applied and no event raises an order.
   */
  lemma {:induction false} OnlySyncedBooksTrade(c: Config, ins: seq<Input>)
    requires RunOk(c, ins) && ins != [] && ins[|ins| - 1].Process? && !Synced(ins)
    ensures Ignored(Run(c, ins[..|ins| - 1]), Run(c, ins), LastOutcome(c, ins))
  {
    var e, i := Run(c, ins[..|ins| - 1]), ins[|ins| - 1];
    hide *;
    NotReached(c, ins);
    LastEvent(c, ins);
    UnreachedChangesNothing(c, e, i.ev, i.now);
  }

  lemma {:induction false} NotReached(c: Config, ins: seq<Input>)
    requires RunOk(c, ins) && ins != [] && ins[|ins| - 1].Process? && !Synced(ins)
    ensures !Reaches(Run(c, ins[..|ins| - 1]), ins[|ins| - 1].ev)
  {
    ReadyIffSynced(c, ins[..|ins| - 1]);
  }

  /** An event that does not reach the strategy raises no order and changes neither book nor strategy. */
  lemma UnreachedChangesNothing(c: Config, e: Engine, ev: Event, now: int)
    requires Ready(c, e) && EventOk(c, e, ev)
    ensures !Reaches(e, ev) ==> Ignored(e, ProcessEvent(c, e, ev, now), OutcomeOf(c, e, ev, now))
  {
  }

  // ---- the smoothed signal in the pipeline

  /** What the smoothing ring saw over a run. */
  function RingOps(c: Config, ins: seq<Input>): seq<RingOp>
    requires RunOk(c, ins)
  {
    if ins == [] then []
    else
      var before, i := ins[..|ins| - 1], ins[|ins| - 1];
      var e := Run(c, before);
      RingOps(c, before) +
      match i
      case Reconnect => [Restart]
      case Process(ev, _) =>
        var b := BookAfter(c, e, ev);
        if Reaches(e, ev) && Samples(b, c.params.depthLevels) then [Sample(Imbalance(b, c.params.depthLevels))] else []
  }

  lemma {:induction false} RingRuns(c: Config, ins: seq<Input>)
    requires RunOk(c, ins)
    ensures Run(c, ins).strategy.ring == RunRing(c.params.window, RingOps(c, ins))
    ensures AllUnit(SinceRestart(RingOps(c, ins)))
  {
    if ins != [] {
      var before := ins[..|ins| - 1];
      RingRuns(c, before);
      LastRingOps(c, ins);
      FollowRing(c.params.window, RingOps(c, before), RingOps(c, ins),
        Run(c, before).strategy.ring, Run(c, ins).strategy.ring);
    }
  }

  /** One operation on the ring, or none. */
  predicate RingMove(window: nat, ops: seq<RingOp>, all: seq<RingOp>, s: Ring, r: Ring)
    requires 1 <= window <= |s.slots| && s.head < window
  {
    || (all == ops && r == s)
    || (all == ops + [Restart] && r == Reset(s))
    || (&& |all| == |ops| + 1 && all[..|ops|] == ops && all[|ops|].Sample?
        && r == Push(s, window, all[|ops|].x) && -1.0 <= all[|ops|].x <= 1.0)
  }

  lemma {:induction false} FollowRing(window: nat, ops: seq<RingOp>, all: seq<RingOp>, s: Ring, r: Ring)
    requires 1 <= window <= MAX_ROLLING && |s.slots| == MAX_ROLLING && s.head < window
    requires s == RunRing(window, ops) && AllUnit(SinceRestart(ops))
    requires RingMove(window, ops, all, s, r)
    ensures r == RunRing(window, all) && AllUnit(SinceRestart(all))
  {
    if all != ops {
      assert all[..|all| - 1] == ops;
    }
  }

  lemma {:induction false} LastRingOps(c: Config, ins: seq<Input>)
    requires RunOk(c, ins) && ins != []
    ensures var s := Run(c, ins[..|ins| - 1]).strategy.ring;
      && 1 <= c.params.window <= |s.slots| == MAX_ROLLING && s.head < c.params.window
      && RingMove(c.params.window, RingOps(c, ins[..|ins| - 1]), RingOps(c, ins), s, Run(c, ins).strategy.ring)
  {
    var before, i := ins[..|ins| - 1], ins[|ins| - 1];
    var e := Run(c, before);
    InputKeeps(c, e, i);
    if i.Process? {
      RingStep(c, e, i.ev, i.now);
      var b := BookAfter(c, e, i.ev);
      if Reaches(e, i.ev) && Samples(b, c.params.depthLevels) {
        assert RingOps(c, ins) == RingOps(c, before) + [Sample(Imbalance(b, c.params.depthLevels))];
      } else {
        assert RingOps(c, ins) == RingOps(c, before);
      }
    }
  }

  /** What one event does to the ring. */
  lemma RingStep(c: Config, e: Engine, ev: Event, now: int)
    requires Ready(c, e) && EventOk(c, e, ev)
    ensures var b, r := BookAfter(c, e, ev), ProcessEvent(c, e, ev, now);
      if Reaches(e, ev) && Samples(b, c.params.depthLevels) then
        && r.strategy.ring == Push(e.strategy.ring, c.params.window, Imbalance(b, c.params.depthLevels))
        && -1.0 <= Imbalance(b, c.params.depthLevels) <= 1.0
      else r.strategy.ring == e.strategy.ring
  {
    ImbalanceInUnit(BookAfter(c, e, ev), c.params.depthLevels);
    StageOf(c, e, ev, now);
    hide ProcessEvent, OutcomeOf, BookAfter, Imbalance, Samples, Push, HoldingIntent, OpeningIntent, ComputeOrder;
  }

  /** On every run the smoothed signal is the mean of the last min(window, k) imbalances since the reconnect. */
  lemma RunSmoothing(c: Config, ins: seq<Input>)
    requires RunOk(c, ins)
    ensures var r, xs := Run(c, ins).strategy.ring, SinceRestart(RingOps(c, ins));
      && r.count == Least(c.params.window, |xs|) && r.head < c.params.window
      && (xs != [] ==> Mean(r) == SumFirst(Last(xs, r.count), r.count) / r.count as real && -1.0 <= Mean(r) <= 1.0)
  {
    RingRuns(c, ins);
    SmoothedSignal(c.params.window, RingOps(c, ins));
  }

  // ---- what the strategy may do, and when

  /** What one event does to the strategy's clock and skip flag, and when it may raise an order. */
  predicate StrategyMove(c: Config, e: Engine, r: Engine, sampled: bool, out: Outcome, now: int) {
    var s := e.strategy;
    && r.strategy.lastTradeNs == (if out.NoOrder? then s.lastTradeNs else now)
    && r.strategy.skipNext == (s.skipNext && !sampled)
    && (!out.NoOrder? ==> !s.skipNext && (s.pnl.position == 0.0 ==> Rested(c.params, s.lastTradeNs, now)))
    && (out.Approved? && out.o.Order? && s.pnl.position == 0.0 && !c.params.allowShort ==> out.o.side == Bid)
  }

  /** The event gives the strategy a sample of the imbalance. */
  predicate Sampled(c: Config, e: Engine, ev: Event)
    requires Ready(c, e)
  {
    Reaches(e, ev) && Samples(BookAfter(c, e, ev), c.params.depthLevels)
  }

  lemma EventMoves(c: Config, e: Engine, ev: Event, now: int)
    requires Ready(c, e) && EventOk(c, e, ev)
    ensures StrategyMove(c, e, ProcessEvent(c, e, ev, now), Sampled(c, e, ev), OutcomeOf(c, e, ev, now), now)
  {
    OutcomeIsOfAnswer(c, e, ev, now);
    if Reaches(e, ev) {
      SignalPurpose(c.params, c.tick, e.strategy, BookAfter(c, e, ev), now);
      MarketMoves(c.params, c.tick, e.strategy, BookAfter(c, e, ev), now);
      OrderSide(c, e, ev, now);
    }
    hide OnMarket, Decide, ProcessEvent, OutcomeOf, ComputeOrder, Samples, BookAfter;
  }

  /** The strategy's part of the next state, and the signal behind the outcome. */
  lemma OutcomeIsOfAnswer(c: Config, e: Engine, ev: Event, now: int)
    requires Ready(c, e) && EventOk(c, e, ev)
    ensures var (s1, sig) := Answer(c, e, ev, now);
      var r, out := ProcessEvent(c, e, ev, now), OutcomeOf(c, e, ev, now);
      && r.strategy.lastTradeNs == s1.lastTradeNs && r.strategy.skipNext == s1.skipNext
      && (out.NoOrder? <==> sig.NoSignal?)
      && (out.Approved? ==> out.o == sig)
  {
    hide Answer, BookAfter, RecordMessage, RecordError, Approves, Simulate, AfterFill, Settle;
  }

  /** An order is of the side the strategy wanted. */
  lemma OrderSide(c: Config, e: Engine, ev: Event, now: int)
    requires Ready(c, e) && EventOk(c, e, ev) && Reaches(e, ev)
    ensures var sig := Answer(c, e, ev, now).1;
      sig.Order? ==> sig.side == Decide(c.params, c.tick, e.strategy, BookAfter(c, e, ev), now).1.side
  {
    hide Decide, BookAfter;
  }

  lemma {:induction false} LastMove(c: Config, ins: seq<Input>)
    requires RunOk(c, ins) && ins != [] && ins[|ins| - 1].Process?
    ensures var e, i := Run(c, ins[..|ins| - 1]), ins[|ins| - 1];
      StrategyMove(c, e, Run(c, ins), Sampled(c, e, i.ev), LastOutcome(c, ins), i.now)
  {
    var e, i := Run(c, ins[..|ins| - 1]), ins[|ins| - 1];
    LastEvent(c, ins);
    EventMoves(c, e, i.ev, i.now);
    hide *;
  }

  /** When the run last raised an order; 0 before the first. */
  function LastOrderAt(c: Config, ins: seq<Input>): int
    requires RunOk(c, ins)
  {
    if ins == [] then 0
    else if !LastOutcome(c, ins).NoOrder? then ins[|ins| - 1].now
    else LastOrderAt(c, ins[..|ins| - 1])
  }

  lemma {:induction false} ClockRuns(c: Config, ins: seq<Input>)
    requires RunOk(c, ins)
    ensures Run(c, ins).strategy.lastTradeNs == LastOrderAt(c, ins)
  {
    if ins != [] {
      ClockRuns(c, ins[..|ins| - 1]);
      if ins[|ins| - 1].Process? {
        LastMove(c, ins);
        hide Run, LastOutcome, Inv;
      }
    }
  }

  /** In every run an order that opens a position comes at least the cooldown after the order before it. */
  lemma {:induction false} OpeningsWaitOutCooldown(c: Config, ins: seq<Input>)
    requires RunOk(c, ins) && ins != [] && ins[|ins| - 1].Process?
    ensures !LastOutcome(c, ins).NoOrder? && Run(c, ins[..|ins| - 1]).strategy.pnl.position == 0.0 ==>
      Rested(c.params, LastOrderAt(c, ins[..|ins| - 1]), ins[|ins| - 1].now)
  {
    LastMove(c, ins);
    ClockRuns(c, ins[..|ins| - 1]);
    hide *;
  }

  /** A reconnect was observed and no sample taken since. */
  predicate Armed(c: Config, ins: seq<Input>)
    requires RunOk(c, ins)
  {
    ins != [] &&
    match ins[|ins| - 1]
    case Reconnect => true
    case Process(ev, _) => Armed(c, ins[..|ins| - 1]) && !Sampled(c, Run(c, ins[..|ins| - 1]), ev)
  }

  lemma {:induction false} SkipRuns(c: Config, ins: seq<Input>)
    requires RunOk(c, ins)
    ensures Run(c, ins).strategy.skipNext <==> Armed(c, ins)
  {
    if ins != [] {
      SkipRuns(c, ins[..|ins| - 1]);
      if ins[|ins| - 1].Process? {
        LastMove(c, ins);
        hide Run, LastOutcome, Sampled, Inv;
      }
    }
  }

  /** In every run the first sampled update after an observed reconnect raises no order. */
  lemma {:induction false} FirstSampleIsSilent(c: Config, ins: seq<Input>)
    requires RunOk(c, ins) && ins != []
    ensures Armed(c, ins[..|ins| - 1]) ==> LastOutcome(c, ins).NoOrder?
  {
    if ins[|ins| - 1].Process? {
      LastMove(c, ins);
      SkipRuns(c, ins[..|ins| - 1]);
      hide Run, LastOutcome, Armed, Inv;
    }
  }

  /** In every run the tracker's position is never short unless the configuration allows shorts. */
  lemma {:induction false} NoShortsUnlessAllowed(c: Config, ins: seq<Input>)
    requires RunOk(c, ins) && !c.params.allowShort
    ensures Run(c, ins).strategy.pnl.position >= 0.0
  {
    if ins != [] {
      NoShortsUnlessAllowed(c, ins[..|ins| - 1]);
      RunStep(c, ins);
      var e, r, out := Run(c, ins[..|ins| - 1]), Run(c, ins), LastOutcome(c, ins);
      if out.Approved? {
        LastMove(c, ins);
        LongStays(c, e, r, out);
      }
      hide *;
    }
  }

  lemma LongStays(c: Config, e: Engine, r: Engine, out: Outcome)
    requires e.strategy.pnl.position >= 0.0 && out.Approved? && LedgerStep(e, r, out, c.tick)
    requires e.strategy.pnl.position == 0.0 ==> out.o.Order? && out.o.side == Bid
    ensures r.strategy.pnl.position >= 0.0
  {
    PositionAfter(e.strategy.pnl, Signed(out.rpt.side, out.rpt.qty), ToDouble(out.rpt.price, c.tick));
    hide Traded;
  }

  // ---- exactly when a run opens a position

  /** The signal the last input of a run raised. */
  function LastSignal(c: Config, ins: seq<Input>): Signal
    requires RunOk(c, ins)
  {
    if ins == [] || ins[|ins| - 1].Reconnect? then NoSignal
    else
      var e, i := Run(c, ins[..|ins| - 1]), ins[|ins| - 1];
      InputKeeps(c, e, i);
      Answer(c, e, i.ev, i.now).1
  }

  /** The mean of the last min(window, k) imbalances of a run since its last reconnect; 0 when there are none. */
  function RunMean(c: Config, ins: seq<Input>): real
    requires RunOk(c, ins)
  {
    MeanOfOps(c.params.window, RingOps(c, ins))
  }

  function MeanOfOps(window: nat, ops: seq<RingOp>): real {
    var xs := SinceRestart(ops);
    var k := Least(window, |xs|);
    if k == 0 then 0.0 else SumFirst(Last(xs, k), k) / k as real
  }

  /** A flat strategy's answer to one event, in terms of the state after it. */
  lemma FlatAnswer(c: Config, e: Engine, ev: Event, now: int, side: Side)
    requires Ready(c, e) && EventOk(c, e, ev) && e.strategy.pnl.position == 0.0
    ensures var (s1, sig) := Answer(c, e, ev, now);
      var b := BookAfter(c, e, ev);
      && (Sampled(c, e, ev) ==> 0 < s1.ring.count <= |s1.ring.slots|)
      && (sig.Order? && sig.side == side <==>
            Sampled(c, e, ev) && Opens(c.params, c.tick, e.strategy, b, side, Mean(s1.ring), now))
      && (OutcomeOf(c, e, ev, now).NoOrder? <==> sig.NoSignal?)
  {
    FlatSendsIffOpens(c.params, c.tick, e.strategy, BookAfter(c, e, ev), side, now);
    hide Opens, HoldingIntent, OpeningIntent, ComputeOrder, BookAfter, Imbalance, Samples, Mean, Simulate, Approves;
  }

  /** The conditions on time, book, cash and signal under which a position is opened. */
  predicate OpensOn(c: Config, b: BookSpec.Book, since: int, now: int, cash: real, side: Side, mean: real) {
    && BookSpec.Wf(b) && TwoSided(b)
    && Rested(c.params, since, now) && Tight(c.params, Prices(c.tick, b).0, Prices(c.tick, b).1)
    && cash > 0.0 && Leans(c.params, side, mean)
  }

  /** What opens a position on a side at the last event of a run, in terms of the run alone. */
  predicate OpensAt(c: Config, ins: seq<Input>, side: Side)
    requires RunOk(c, ins) && ins != [] && ins[|ins| - 1].Process?
  {
    var before, i, r := ins[..|ins| - 1], ins[|ins| - 1], Run(c, ins);
    && Sampled(c, Run(c, before), i.ev) && !Armed(c, before)
    && OpensOn(c, r.book, LastOrderAt(c, before), i.now, Run(c, before).strategy.pnl.cash, side, RunMean(c, ins))
  }

  /**
   In every run, an event that meets a flat position raises an order on a side exactly when
   it brings a sample, the first sample since a reconnect has already passed, the cooldown
   since the last order has run out, the spread is within its limit, there is cash, and the
   mean of the last min(window, k) imbalances leans to that side beyond the threshold.
   */
  lemma {:induction false} OpensExactlyWhen(c: Config, ins: seq<Input>, side: Side)
    requires RunOk(c, ins) && ins != [] && ins[|ins| - 1].Process?
    ensures Run(c, ins[..|ins| - 1]).strategy.pnl.position == 0.0 ==>
      && (LastSignal(c, ins).Order? && LastSignal(c, ins).side == side <==> OpensAt(c, ins, side))
      && (LastSignal(c, ins).NoSignal? <==> LastOutcome(c, ins).NoOrder?)
  {
    var before, i := ins[..|ins| - 1], ins[|ins| - 1];
    var e, r := Run(c, before), Run(c, ins);
    LastFlatMove(c, ins, side);
    ClockRuns(c, before);
    SkipRuns(c, before);
    MeanRuns(c, ins);
    AnswerOn(c, e, r, side, i.now);
    hide Run, Inv, Sampled, Armed, LastOrderAt, RunMean, Mean, LastSignal, LastOutcome, AnswerOpens, OpensOn;
  }

  lemma AnswerOn(c: Config, e: Engine, r: Engine, side: Side, now: int)
    ensures AnswerOpens(c, e, r, side, now) <==>
      && 0 < r.strategy.ring.count <= |r.strategy.ring.slots|
      && BookSpec.Wf(r.book) && Samples(r.book, c.params.depthLevels) && !e.strategy.skipNext
      && OpensOn(c, r.book, e.strategy.lastTradeNs, now, e.strategy.pnl.cash, side, Mean(r.strategy.ring))
  {
    hide Mean, Imbalance;
  }

  /** The sampled answer of the last event, in terms of the book and the ring it left. */
  predicate AnswerOpens(c: Config, e: Engine, r: Engine, side: Side, now: int) {
    && BookSpec.Wf(r.book)
    && 0 < r.strategy.ring.count <= |r.strategy.ring.slots|
    && Opens(c.params, c.tick, e.strategy, r.book, side, Mean(r.strategy.ring), now)
  }

  /** What a flat strategy's signal says of the event and the state it left. */
  predicate FlatMove(c: Config, e: Engine, r: Engine, sampled: bool, sig: Signal, out: Outcome, side: Side, now: int)
  {
    && BookSpec.Wf(r.book)
    && (sig.Order? && sig.side == side <==> sampled && AnswerOpens(c, e, r, side, now))
    && (sampled ==> 0 < r.strategy.ring.count <= |r.strategy.ring.slots| && Samples(r.book, c.params.depthLevels))
    && (sig.NoSignal? <==> out.NoOrder?)
  }

  lemma FlatEvent(c: Config, e: Engine, ev: Event, now: int, side: Side)
    requires Ready(c, e) && EventOk(c, e, ev)
    ensures e.strategy.pnl.position == 0.0 ==>
      FlatMove(c, e, ProcessEvent(c, e, ev, now), Sampled(c, e, ev),
        Answer(c, e, ev, now).1, OutcomeOf(c, e, ev, now), side, now)
  {
    if e.strategy.pnl.position != 0.0 { return; }
    StageOf(c, e, ev, now);
    FlatAnswer(c, e, ev, now, side);
    hide ProcessEvent, OutcomeOf, Answer, BookAfter, Mean, MayOpen, Leans;
  }

  lemma {:induction false} LastFlatMove(c: Config, ins: seq<Input>, side: Side)
    requires RunOk(c, ins) && ins != [] && ins[|ins| - 1].Process?
    ensures var e, i := Run(c, ins[..|ins| - 1]), ins[|ins| - 1];
      e.strategy.pnl.position == 0.0 ==>
        FlatMove(c, e, Run(c, ins), Sampled(c, e, i.ev), LastSignal(c, ins), LastOutcome(c, ins), side, i.now)
  {
    var e, i := Run(c, ins[..|ins| - 1]), ins[|ins| - 1];
    LastEvent(c, ins);
    LastSignalIs(c, ins);
    FlatEvent(c, e, i.ev, i.now, side);
    hide *;
  }

  lemma {:induction false} LastSignalIs(c: Config, ins: seq<Input>)
    requires RunOk(c, ins) && ins != [] && ins[|ins| - 1].Process?
    ensures var e, i := Run(c, ins[..|ins| - 1]), ins[|ins| - 1];
      && Ready(c, e) && EventOk(c, e, i.ev)
      && LastSignal(c, ins) == Answer(c, e, i.ev, i.now).1
  {
    InputKeeps(c, Run(c, ins[..|ins| - 1]), ins[|ins| - 1]);
    hide Run, Inv, Answer;
  }

  /** The ring's mean is the mean of the run. */
  lemma {:induction false} MeanRuns(c: Config, ins: seq<Input>)
    requires RunOk(c, ins)
    ensures var r := Run(c, ins).strategy.ring; 0 < r.count <= |r.slots| ==> Mean(r) == RunMean(c, ins)
  {
    RunSmoothing(c, ins);
    hide Run, Inv;
  }

  /** m is the imbalance of a book that gives one. */
  predicate IsImbalance(c: Config, b: BookSpec.Book, m: real) {
    BookSpec.Wf(b) && Samples(b, c.params.depthLevels) && m == Imbalance(b, c.params.depthLevels)
  }

  /** With a window of one the mean of a run is the imbalance of the book at its last sample. */
  lemma {:induction false} MeanOfOne(c: Config, ins: seq<Input>)
    requires RunOk(c, ins) && ins != [] && ins[|ins| - 1].Process? && c.params.window == 1
    ensures Sampled(c, Run(c, ins[..|ins| - 1]), ins[|ins| - 1].ev) ==> IsImbalance(c, Run(c, ins).book, RunMean(c, ins))
  {
    var before, i := ins[..|ins| - 1], ins[|ins| - 1];
    if Sampled(c, Run(c, before), i.ev) {
      hide Run, Inv, Imbalance, BookAfter, Samples, Reaches, RingOps, Sampled, MeanOfOps;
      SampleOfEvent(c, ins);
      LastBook(c, ins);
      OneSample(RingOps(c, before), Imbalance(BookAfter(c, Run(c, before), i.ev), c.params.depthLevels));
    }
  }

  lemma {:induction false} SampleOfEvent(c: Config, ins: seq<Input>)
    requires RunOk(c, ins) && ins != [] && ins[|ins| - 1].Process?
    requires Sampled(c, Run(c, ins[..|ins| - 1]), ins[|ins| - 1].ev)
    ensures var b := BookAfter(c, Run(c, ins[..|ins| - 1]), ins[|ins| - 1].ev);
      && Samples(b, c.params.depthLevels)
      && RingOps(c, ins) == RingOps(c, ins[..|ins| - 1]) + [Sample(Imbalance(b, c.params.depthLevels))]
  {
    hide Imbalance, Samples, BookAfter;
  }

  lemma {:induction false} OneSample(ops: seq<RingOp>, x: real)
    ensures MeanOfOps(1, ops + [Sample(x)]) == x
  {
    assert (ops + [Sample(x)])[..|ops|] == ops;
    var xs := SinceRestart(ops + [Sample(x)]);
    assert Last(xs, 1) == [x];
    assert SumFirst([x], 0) == 0.0;
  }

  /**
   In every run with a window of one, an order from flat is a buy only on a book whose bids
   show more size than its asks, and a sell only on one whose asks show more.
   */
  lemma {:induction false} BuysBidHeavyBooks(c: Config, ins: seq<Input>)
    requires RunOk(c, ins) && ins != [] && ins[|ins| - 1].Process? && c.params.window == 1
    ensures var b, sig := Run(c, ins).book, LastSignal(c, ins);
      Run(c, ins[..|ins| - 1]).strategy.pnl.position == 0.0 && sig.Order? ==>
        if sig.side == Bid then SideSize(b, Bid, c.params.depthLevels) > SideSize(b, Ask, c.params.depthLevels)
        else SideSize(b, Ask, c.params.depthLevels) > SideSize(b, Bid, c.params.depthLevels)
  {
    var b, sig, e := Run(c, ins).book, LastSignal(c, ins), Run(c, ins[..|ins| - 1]);
    if e.strategy.pnl.position == 0.0 && sig.Order? {
      OpensExactlyWhen(c, ins, sig.side);
      MeanOfOne(c, ins);
      ImbalanceIsBidHeavy(b, c.params.depthLevels);
      assert c.params.entryImbalance >= 0.0;
      hide Run, Inv, Sampled, Armed, LastSignal, RunMean, SideSize, Imbalance, Samples, LastOrderAt, LastOutcome;
    }
  }

  // ---- exactly what becomes of an order

  /** Halted by a tripped breaker; else approved when a full fill at the limit keeps the account within its limits. */
  predicate Decided(c: Config, k: Risk, halted: bool, b: BookSpec.Book, sig: Signal, out: Outcome) {
    sig.Order? ==>
      var within := WithinLimits(Settle(k, FullFill(sig.side, sig.price, sig.qty), c.tick));
      && (out.Halted? <==> halted)
      && (out.Approved? <==> !halted && within)
      && (out.Rejected? <==> !halted && !within)
      && (out.Approved? ==> BookSpec.Wf(b) && out.o == sig && out.rpt == Simulate(b, sig.side, sig.price, sig.qty))
  }

  lemma EventDecides(c: Config, e: Engine, ev: Event, now: int)
    requires Ready(c, e) && EventOk(c, e, ev) && WithinLimits(e.risk)
    ensures Decided(c, e.risk, RecordMessage(e.breaker).tripped, ProcessEvent(c, e, ev, now).book,
      Answer(c, e, ev, now).1, OutcomeOf(c, e, ev, now))
  {
    var b, sig := BookAfter(c, e, ev), Answer(c, e, ev, now).1;
    StageOf(c, e, ev, now);
    if sig.Order? {
      SignalPurpose(c.params, c.tick, e.strategy, b, now);
      var want := Decide(c.params, c.tick, e.strategy, b, now).1;
      SizedOrderFills(b, want.side, want.target);
      LimitIsALevel(b, want.side, want.target);
      ApprovesIffFillStaysWithin(e.risk, sig.side, sig.price, sig.qty, c.tick);
    }
    hide ProcessEvent, BookAfter, Answer, Approves, WithinLimits, Settle, Simulate, RecordMessage;
  }

  lemma {:induction false} LastDecides(c: Config, ins: seq<Input>)
    requires RunOk(c, ins) && ins != [] && ins[|ins| - 1].Process?
    ensures var e := Run(c, ins[..|ins| - 1]);
      Decided(c, e.risk, RecordMessage(e.breaker).tripped, Run(c, ins).book, LastSignal(c, ins), LastOutcome(c, ins))
  {
    var e, i := Run(c, ins[..|ins| - 1]), ins[|ins| - 1];
    LastEvent(c, ins);
    LastSignalIs(c, ins);
    LimitsHold(c, ins[..|ins| - 1]);
    assert WithinLimits(e.risk);
    EventDecides(c, e, i.ev, i.now);
    hide *;
  }

  /**
   In every run an order is halted exactly when the rejections of the run have the breaker
   tripped at its message, and otherwise approved exactly when a full fill at its limit would
   keep the account within its limits; it is then simulated on the book of its event.
   */
  lemma {:induction false} OrdersAreDecided(c: Config, ins: seq<Input>)
    requires RunOk(c, ins) && ins != [] && ins[|ins| - 1].Process?
    ensures var rs := Refusals(c, ins);
      && rs != []
      && Decided(c, Run(c, ins[..|ins| - 1]).risk, Blocked(Fresh(c.threshold, c.window), rs, |rs|),
           Run(c, ins).book, LastSignal(c, ins), LastOutcome(c, ins))
  {
    var before, rs := ins[..|ins| - 1], Refusals(c, ins);
    LastDecides(c, ins);
    BreakerRuns(c, before);
    assert rs == Refusals(c, before) + [LastOutcome(c, ins).Rejected?];
    assert rs[..|rs| - 1] == Refusals(c, before);
    hide Run, Inv, Refusals, Decided, LastSignal, LastOutcome, RecordMessage, After;
  }

  // ---- updates that came too early

  /** The l2updates of a run that met an unsynced book. */
  function EarlyUpdates(ins: seq<Input>): nat {
    if ins == [] then 0
    else
      var before, i := ins[..|ins| - 1], ins[|ins| - 1];
      EarlyUpdates(before) + if i.Process? && i.ev.L2Update? && !Synced(before) then 1 else 0
  }

  lemma EventCountsEarly(c: Config, e: Engine, ev: Event, now: int)
    requires Ready(c, e) && EventOk(c, e, ev)
    ensures ProcessEvent(c, e, ev, now).counters.preSnapshot ==
      e.counters.preSnapshot + if ev.L2Update? && !e.ready then 1 else 0
  {
    hide Answer, BookAfter, RecordMessage, RecordError, OutcomeOf, AfterFill, Settle;
  }

  /** In every run preSnapshotDrops counts exactly those. */
  lemma {:induction false} EarlyUpdatesAreCounted(c: Config, ins: seq<Input>)
    requires RunOk(c, ins)
    ensures Run(c, ins).counters.preSnapshot == EarlyUpdates(ins)
  {
    if ins != [] {
      var before, i := ins[..|ins| - 1], ins[|ins| - 1];
      EarlyUpdatesAreCounted(c, before);
      ReadyIffSynced(c, before);
      if i.Process? {
        LastEvent(c, ins);
        EventCountsEarly(c, Run(c, before), i.ev, i.now);
        hide Run, Inv, ProcessEvent, Synced, LastOutcome, OutcomeOf;
      }
    }
  }

  // ---- chunks in the pipeline

  /** The chunks of one message as consecutive inputs, each processed at its own time. */
  function ChunkInputs(chunks: seq<seq<Change>>, times: seq<int>): (ins: seq<Input>)
    requires |times| == |chunks|
    ensures |ins| == |chunks|
  {
    seq(|chunks|, k requires 0 <= k < |chunks| => Process(L2Update(chunks[k]), times[k]))
  }

  lemma ChunksStaySynced(ins: seq<Input>, chunks: seq<seq<Change>>, times: seq<int>)
    requires |times| == |chunks| && Synced(ins)
    ensures Synced(ins + ChunkInputs(chunks, times))
  {
    var all := ins + ChunkInputs(chunks, times);
    if chunks == [] {
      assert all == ins;
    } else {
      var n := |chunks| - 1;
      ChunksStaySynced(ins, chunks[..n], times[..n]);
      assert all[..|all| - 1] == ins + ChunkInputs(chunks[..n], times[..n]);
    }
  }

  /** A chunk processed on a synced book applies exactly its changes. */
  lemma {:induction false} SyncedChunk(c: Config, ins: seq<Input>, cs: seq<Change>)
    requires RunOk(c, ins) && ins != [] && ins[|ins| - 1].Process? && ins[|ins| - 1].ev == L2Update(cs)
    requires Synced(ins[..|ins| - 1])
    ensures Run(c, ins).book == ApplyChanges(Run(c, ins[..|ins| - 1]).book, cs, c.tick)
  {
    ReadyIffSynced(c, ins[..|ins| - 1]);
    LastBook(c, ins);
    hide Inv, Run;
  }

  /** With no reconnect in between, a message drained chunk by chunk leaves the book of the whole message. */
  lemma {:induction false} ChunkedMessage(c: Config, ins: seq<Input>, chunks: seq<seq<Change>>, times: seq<int>)
    requires |times| == |chunks| && Synced(ins)
    requires RunOk(c, ins + ChunkInputs(chunks, times)) && RunOk(c, ins)
    ensures Run(c, ins + ChunkInputs(chunks, times)).book == ApplyChanges(Run(c, ins).book, Concat(chunks), c.tick)
  {
    var all := ins + ChunkInputs(chunks, times);
    if chunks == [] {
      assert all == ins;
    } else {
      var n := |chunks| - 1;
      var before := ins + ChunkInputs(chunks[..n], times[..n]);
      assert all[..|all| - 1] == before && all[|all| - 1] == Process(L2Update(chunks[n]), times[n]);
      assert RunOk(c, before) by { assert forall k :: 0 <= k < |before| ==> before[k] == all[k]; }
      ChunkedMessage(c, ins, chunks[..n], times[..n]);
      ChunksStaySynced(ins, chunks[..n], times[..n]);
      SyncedChunk(c, all, chunks[n]);
      ChangesInTwo(Run(c, ins).book, Concat(chunks[..n]), chunks[n], c.tick);
      hide Run, OnInput, ApplyChanges, Inv;
    }
  }

  lemma {:induction false} LastBook(c: Config, ins: seq<Input>)
    requires RunOk(c, ins) && ins != [] && ins[|ins| - 1].Process?
    ensures Run(c, ins).book == BookAfter(c, Run(c, ins[..|ins| - 1]), ins[|ins| - 1].ev)
  {
    var e, i := Run(c, ins[..|ins| - 1]), ins[|ins| - 1];
    LastEvent(c, ins);
    StageOf(c, e, i.ev, i.now);
    hide BookAfter, ProcessEvent, OutcomeOf, Inv;
  }
}
