/**
 `Runtime`: the strategy thread's objects wired together, updated in place. Every method
 is proved to do to the objects what the pipeline state machine does to its state.
 */
module Runtime {
  import opened Types
  import opened BookSpec
  import opened BookProperties
  import opened OrderSizer
  import opened ExecutionEngine
  import opened PnlTracker
  import opened RiskManager
  import opened CircuitBreaker
  import opened ImbalanceStrategy
  import opened Feed
  import opened Pipeline
  import BB = BoundedBook
  import IS = ImbalanceStrategy
  import RM = RiskManager
  import CB = CircuitBreaker

  // ---- the book stage

  /** The best-listed scans of the snapshot branch. */
  method ScanBest(side: Side, ls: seq<PriceLevel>) returns (best: Option<int>)
    ensures best == BestListed(side, ls)
  {
    best := None;
    for i := 0 to |ls|
      invariant best == BestListed(side, ls[..i])
    {
      var l := ls[i];
      if l.qty > 0.0 {
        if best.None? || Better(side, l.ticks, best.value) { best := Some(l.ticks); }
      }
      assert ls[..i + 1][..i] == ls[..i];
    }
    assert ls[..|ls|] == ls;
  }

  /** One update loop of the snapshot branch. */
  method FeedAll(book: BB.BoundedBook, side: Side, ls: seq<PriceLevel>)
    requires book.Valid()
    modifies book, book.bids, book.asks, book.bidBits, book.askBits
    ensures book.Valid() && book.Value() == FeedSide(old(book.Value()), side, ls)
  {
    ghost var b := book.Value();
    for i := 0 to |ls|
      invariant book.Valid() && book.Value() == FeedSide(b, side, ls[..i])
    {
      book.Update(side, ls[i].ticks, ls[i].qty);
      assert ls[..i + 1][..i] == ls[..i];
    }
    assert ls[..|ls|] == ls;
  }

  method RebuildFrom(book: BB.BoundedBook, bids: seq<PriceLevel>, asks: seq<PriceLevel>)
    requires book.Valid()
    modifies book, book.bids, book.asks, book.bidBits, book.askBits
    ensures book.Valid() && book.Value() == ApplySnapshot(old(book.Value()), bids, asks)
  {
    AnchorBook(book, bids, asks);
    FeedAll(book, Bid, bids);
    FeedAll(book, Ask, asks);
  }

  /** Clears the book and anchors it on the mid of the best live levels, if both sides have one. */
  method AnchorBook(book: BB.BoundedBook, bids: seq<PriceLevel>, asks: seq<PriceLevel>)
    requires book.Valid()
    modifies book, book.bids, book.asks, book.bidBits, book.askBits
    ensures book.Valid() && book.Value() == Anchored(old(book.Value()), bids, asks)
  {
    book.Clear();
    var bestBid := ScanBest(Bid, bids);
    var bestAsk := ScanBest(Ask, asks);
    if bestBid.Some? && bestAsk.Some? {
      var diff := bestAsk.value - bestBid.value;
      var half := if diff >= 0 then diff / 2 else -((-diff) / 2);
      book.SeedReference(bestBid.value + half);
    }
  }

  /** The update loop of the l2update branch. */
  method ApplyAll(book: BB.BoundedBook, cs: seq<Change>, tick: real)
    requires book.Valid() && tick > 0.0
    modifies book, book.bids, book.asks, book.bidBits, book.askBits
    ensures book.Valid() && book.Value() == ApplyChanges(old(book.Value()), cs, tick)
  {
    ghost var b := book.Value();
    for i := 0 to |cs|
      invariant book.Valid() && book.Value() == ApplyChanges(b, cs[..i], tick)
    {
      book.Update(cs[i].side, FromDouble(cs[i].px, tick), cs[i].qty);
      assert cs[..i + 1][..i] == cs[..i];
    }
    assert cs[..|cs|] == cs;
  }

  /** A risk manager configured for one symbol, with the cash check on. */
  method ConfiguredRisk(cfg: Config, symbol: nat) returns (r: RM.RiskManager)
    requires ConfigChecked(cfg) && symbol < MAX_SYMBOLS
    ensures r.Valid() && fresh(r) && fresh(r.positions) && fresh(r.maxPositions) && fresh(r.cash)
    ensures r.cashEnabled && r.tick == cfg.tick
    ensures r.Account(symbol) == Risk(0.0, cfg.maxPosition, cfg.initialCash)
  {
    r := new RM.RiskManager();
    assert r.Account(symbol) == Risk(0.0, 0.0, 0.0);
    r.Configure(symbol, cfg.maxPosition, cfg.initialCash, cfg.tick);
  }

  lemma BookIgnoresBreaker(c: Config, e: Engine, ev: Event, k: Breaker)
    requires Ready(c, e)
    ensures BookAfter(c, e.(breaker := k), ev) == BookAfter(c, e, ev)
  {
  }

  lemma StartOfRun(c: Config, ins: seq<Input>)
    requires RunOk(c, ins)
    ensures Pipeline.Run(c, ins[..0]) == Start(c)
  {
  }

  lemma {:induction false} NextOfRun(c: Config, ins: seq<Input>, i: nat)
    requires RunOk(c, ins) && i < |ins|
    ensures var e := Pipeline.Run(c, ins[..i]);
      && Ready(c, e)
      && match ins[i]
         case Process(ev, now) => EventOk(c, e, ev) && Pipeline.Run(c, ins[..i + 1]) == Pipeline.ProcessEvent(c, e, ev, now)
         case Reconnect => Pipeline.Run(c, ins[..i + 1]) == OnInput(c, e, Reconnect)
  {
    assert ins[..i + 1][..i] == ins[..i];
    InputKeeps(c, Pipeline.Run(c, ins[..i]), ins[i]);
  }

  // ---- the runtime

  class Runtime {
    const cfg: Config
    const symbol: nat
    const book: BB.BoundedBook
    const strategy: IS.ImbalanceStrategy
    const risk: RM.RiskManager
    const breaker: CB.CircuitBreaker
    var bookReady: bool
    var nextOrderId: nat
    var metrics: Counters

    /** Not one of the book's ladders. */
    ghost predicate Apart(a: array<real>)
      reads this
    {
      a != book.bids && a != book.asks
    }

    /** The objects are wired to the configuration and share no arrays. */
    ghost predicate Wired()
      reads this, risk, strategy
    {
      && ConfigChecked(cfg) && symbol < MAX_SYMBOLS
      && book.cap == cfg.cap
      && strategy.params == cfg.params && strategy.symbol == symbol && strategy.tickSize == cfg.tick
      && risk.cashEnabled && risk.tick == cfg.tick
      && breaker.threshold == cfg.threshold && breaker.windowMessages == cfg.window
      && Apart(strategy.rolling) && Apart(risk.positions) && Apart(risk.maxPositions) && Apart(risk.cash)
      && strategy.rolling != risk.positions && strategy.rolling != risk.maxPositions && strategy.rolling != risk.cash
    }

    ghost predicate Valid()
      reads this, book, book.bids, book.asks, book.bidBits, book.askBits
      reads strategy, strategy.rolling, strategy.pnl, strategy.pnl.states, risk
    {
      Wired() && book.Valid() && strategy.Valid() && risk.Valid()
    }

    ghost function Value(): Engine
      requires Valid()
      reads this, book, book.bids, book.asks, book.bidBits, book.askBits
      reads strategy, strategy.rolling, strategy.pnl, strategy.pnl.states
      reads risk, risk.positions, risk.maxPositions, risk.cash, breaker
    {
      Engine(book.Value(), bookReady, strategy.Value(), risk.Account(symbol), breaker.Value(), nextOrderId, metrics)
    }

    constructor (cfg: Config, symbol: nat)
      requires ConfigChecked(cfg) && symbol < MAX_SYMBOLS
      ensures Valid() && this.cfg == cfg && this.symbol == symbol && Value() == Start(cfg)
      ensures fresh(book) && fresh(book.Repr) && fresh(strategy) && fresh(strategy.rolling)
      ensures fresh(strategy.pnl) && fresh(strategy.pnl.states)
      ensures fresh(risk) && fresh(risk.positions) && fresh(risk.maxPositions) && fresh(risk.cash) && fresh(breaker)
    {
      this.cfg, this.symbol := cfg, symbol;
      book := new BB.BoundedBook(cfg.cap);
      strategy := new IS.ImbalanceStrategy(cfg.params, symbol, cfg.tick, cfg.initialCash);
      var limits := ConfiguredRisk(cfg, symbol);
      risk := limits;
      breaker := new CB.CircuitBreaker(cfg.threshold, cfg.window);
      bookReady, nextOrderId := false, 1;
      metrics := Counters(0, 0, 0, 0, 0, 0, 0, 0);
    }

    /** The strategy loop on an observed invalidation. */
    method ObserveReconnect()
      requires Valid() && Ready(cfg, Value())
      modifies this`bookReady, strategy
      ensures Valid() && Value() == OnInput(cfg, old(Value()), Reconnect)
    {
      bookReady := false;
      strategy.Reconnected();
    }

    /** The strategy loop from a fresh start: reconnects observed and events processed, one after the other. */
    method StrategyLoop(ins: seq<Input>)
      requires Valid() && Value() == Start(cfg) && RunOk(cfg, ins)
      modifies this, book, book.bids, book.asks, book.bidBits, book.askBits
      modifies strategy, strategy.rolling, strategy.pnl.states, risk.positions, risk.cash, breaker
      ensures Valid() && Value() == Pipeline.Run(cfg, ins)
    {
      hide OnInput, Runtime.Valid, Runtime.Value;
      StartOfRun(cfg, ins);
      for i := 0 to |ins|
        invariant Valid() && Value() == Pipeline.Run(cfg, ins[..i])
      {
        NextOfRun(cfg, ins, i);
        match ins[i]
        case Process(ev, now) => ProcessEvent(ev, now);
        case Reconnect => ObserveReconnect();
      }
      assert ins[..|ins|] == ins;
    }

    /** The switch of processEvent: false when the event stops there. */
    method UpdateBook(ev: Event) returns (reached: bool)
      requires Valid() && Ready(cfg, Value())
      modifies this`bookReady, this`metrics, book, book.bids, book.asks, book.bidBits, book.askBits
      ensures Valid() && reached == Reaches(old(Value()), ev)
      ensures Value() == old(Value()).(
        book := BookAfter(cfg, old(Value()), ev),
        ready := old(bookReady) || ev.Snapshot?,
        counters := if ev.L2Update? && !old(bookReady)
                    then old(metrics).(preSnapshot := old(metrics).preSnapshot + 1) else old(metrics))
    {
      hide BB.BoundedBook.Valid, IS.ImbalanceStrategy.Valid, ApplySnapshot, ApplyChanges;
      match ev
      case Snapshot(bids, asks) =>
        RebuildFrom(book, bids, asks);
        bookReady := true;
        return true;
      case L2Update(cs) =>
        if !bookReady {
          metrics := metrics.(preSnapshot := metrics.preSnapshot + 1);
          return false;
        }
        ApplyAll(book, cs, cfg.tick);
        return true;
      case Heartbeat => return false;
    }
  
    /** processEvent: the breaker counts the message, the book takes it, the strategy answers. */
    method ProcessEvent(ev: Event, now: int)
      requires Valid() && Ready(cfg, Value()) && EventOk(cfg, Value(), ev)
      modifies this, book, book.bids, book.asks, book.bidBits, book.askBits
      modifies strategy, strategy.rolling, strategy.pnl.states, risk.positions, risk.cash, breaker
      ensures Valid() && Value() == Pipeline.ProcessEvent(cfg, old(Value()), ev, now)
    {
      hide Dispatched, OnMarket, BookAfter, RecordMessage, Runtime.Valid, Runtime.Value;
      ghost var e := Value();
      var sig := AnswerEvent(ev, now);
      if sig.Order? {
        CountSignalled();
        assert Value() == CountSignal(Answered(cfg, e, ev, now));
        DispatchOrder(sig);
      }
    }

    method CountSignalled()
      requires Valid()
      modifies this`metrics
      ensures Valid() && Value() == CountSignal(old(Value()))
    {
      metrics := metrics.(signals := metrics.signals + 1);
    }

    /** processEvent up to the signal. */
    method AnswerEvent(ev: Event, now: int) returns (sig: Signal)
      requires Valid() && Ready(cfg, Value()) && EventOk(cfg, Value(), ev)
      modifies this`bookReady, this`metrics, book, book.bids, book.asks, book.bidBits, book.askBits
      modifies strategy, strategy.rolling, breaker
      ensures Valid() && sig == Answer(cfg, old(Value()), ev, now).1
      ensures Value() == Answered(cfg, old(Value()), ev, now)
    {
      hide OnMarket, BookAfter, RecordMessage;
      sig := NoSignal;
      BookIgnoresBreaker(cfg, Value(), ev, RecordMessage(Value().breaker));
      breaker.OnMessage();
      var reached := UpdateBook(ev);
      if reached { sig := strategy.OnMarketUpdate(book, now); }
    }

    /** dispatchOrder */
    method DispatchOrder(o: Signal)
      requires Valid() && o.Order?
      modifies this`nextOrderId, this`metrics, risk.positions, risk.cash, strategy.pnl.states, breaker
      ensures Valid()
      ensures Value() == Dispatched(old(Value()), Dispatch(old(Value()), old(Value()).book, o, cfg.tick), cfg.tick)
    {
      hide Approves, Simulate, Filled, TallyApproved, RecordError;
      hide BB.BoundedBook.Valid, IS.ImbalanceStrategy.Valid;
      nextOrderId := nextOrderId + 1;
      metrics := metrics.(sent := metrics.sent + 1);
      var tripped := breaker.IsTripped();
      if tripped {
        metrics := metrics.(blocked := metrics.blocked + 1);
        return;
      }
      var ok := risk.Approve(symbol, o.side, o.price, o.qty);
      if !ok {
        metrics := metrics.(rejected := metrics.rejected + 1);
        breaker.OnError();
        return;
      }
      Execute(o);
    }

    /** The approved order: simulated, counted, and booked when it fills. */
    method Execute(o: Signal)
      requires Valid() && o.Order?
      modifies this`metrics, risk.positions, risk.cash, strategy.pnl.states
      ensures Valid()
      ensures var e := old(Value());
        var rpt := Simulate(e.book, o.side, o.price, o.qty);
        Value() == Filled(e.(counters := TallyApproved(e.counters, o, rpt)), rpt, cfg.tick)
    {
      hide Simulate, Traded, BB.BoundedBook.Valid, IS.ImbalanceStrategy.Valid;
      metrics := metrics.(approved := metrics.approved + 1);
      var rpt := SimulateOrder(book, cfg.tick, o.side, o.price, o.qty);
      if rpt.isFill {
        metrics := metrics.(fills := metrics.fills + 1);
        if rpt.qty < o.qty - DUST { metrics := metrics.(partials := metrics.partials + 1); }
        BookFill(rpt);
      }
    }

    /** The fill goes to both ledgers. */
    method BookFill(rpt: Report)
      requires Valid() && rpt.isFill
      modifies risk.positions, risk.cash, strategy.pnl.states
      ensures Valid() && Value() == Filled(old(Value()), rpt, cfg.tick)
    {
      hide AfterFill, Settle;
      risk.OnFill(symbol, rpt);
      strategy.OnFill(rpt);
    }
  }

  /** A runtime started and fed any inputs: the objects themselves end within their limits. */
  method Trade(cfg: Config, symbol: nat, ins: seq<Input>) returns (rt: Runtime)
    requires RunOk(cfg, ins) && symbol < MAX_SYMBOLS
    ensures fresh(rt) && rt.Valid() && rt.Value() == Pipeline.Run(cfg, ins)
    ensures -cfg.maxPosition <= rt.risk.positions[symbol] <= cfg.maxPosition && rt.risk.cash[symbol] >= 0.0
    ensures rt.metrics.fills == rt.metrics.approved && rt.metrics.partials == 0
  {
    rt := new Runtime(cfg, symbol);
    rt.StrategyLoop(ins);
    LimitsHold(cfg, ins);
    OrdersAreAccountedFor(cfg, ins);
    assert rt.Value().risk == rt.risk.Account(symbol);
  }
}
