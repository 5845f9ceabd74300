/**
 The network thread and the strategy thread around the event queue and the invalidation
 flag. Pushes and pops are single steps, as the queue refines a bounded FIFO; every
 other atomic access is a step of its own. `inputs` is what the strategy thread did, as
 inputs of the pipeline, and `turns` says of each processed event when it was pushed
 and what had been observed by then.
 */
module Threads {
  import opened Feed
  import opened Pipeline

  const QUEUE_CAPACITY: nat := 4096

  /** A queued event with the number of reconnects before its push. */
  datatype Item = Item(ev: Event, epoch: nat)

  /** A processed event: its epoch, the reconnects observed before it, and whether the loop was draining. */
  datatype Turn = Turn(epoch: nat, observed: nat, draining: bool)

  datatype Loop =
    | LTop                   // about to load running
    | LFlag                  // about to exchange the invalidation flag
    | LPop                   // about to pop
    | LProcess(item: Item)
    | LDrain                 // after the loop: about to pop
    | LDrainProcess(item: Item)
    | LExited

  datatype State = State(
    flag: bool, running: bool, netDone: bool, queue: seq<Item>, loop: Loop,
    reconnects: nat, observed: nat, pushed: seq<Item>, refused: nat, inputs: seq<Input>, turns: seq<Turn>)

  /** A network push, a reconnect, the network thread ending, running cleared after that, one strategy step. */
  datatype Action = Push(ev: Event) | Reconnected | NetStop | Stop | StrategyStep(now: int)

  function Init(): State {
    State(false, true, false, [], LTop, 0, 0, [], 0, [], [])
  }

  function StrategyStepOf(s: State, now: int): State {
    match s.loop
    case LTop => s.(loop := if s.running then LFlag else LDrain)
    case LFlag =>
      s.(loop := LPop, flag := false, observed := s.reconnects,
         inputs := if s.flag then s.inputs + [Reconnect] else s.inputs)
    case LPop => if s.queue == [] then s.(loop := LTop) else s.(loop := LProcess(s.queue[0]), queue := s.queue[1..])
    case LProcess(item) =>
      s.(loop := LTop, inputs := s.inputs + [Process(item.ev, now)],
         turns := s.turns + [Turn(item.epoch, s.observed, false)])
    case LDrain =>
      if s.queue == [] then s.(loop := LExited) else s.(loop := LDrainProcess(s.queue[0]), queue := s.queue[1..])
    case LDrainProcess(item) =>
      s.(loop := LDrain, inputs := s.inputs + [Process(item.ev, now)],
         turns := s.turns + [Turn(item.epoch, s.observed, true)])
    case LExited => s
  }

  function Step(s: State, a: Action): State {
    match a
    case Push(ev) =>
      if s.netDone then s
      else if |s.queue| >= QUEUE_CAPACITY then s.(refused := s.refused + 1)
      else
        var item := Item(ev, s.reconnects);
        s.(queue := s.queue + [item], pushed := s.pushed + [item])
    case Reconnected => if s.netDone then s else s.(flag := true, reconnects := s.reconnects + 1)
    case NetStop => s.(netDone := true)
    case Stop => if s.netDone then s.(running := false) else s
    case StrategyStep(now) => StrategyStepOf(s, now)
  }

  function Run(acts: seq<Action>): State {
    if acts == [] then Init() else Step(Run(acts[..|acts| - 1]), acts[|acts| - 1])
  }

  // ---- the invariant

  /** The item popped but not yet processed. */
  function InHand(s: State): seq<Item> {
    match s.loop
    case LProcess(item) => [item]
    case LDrainProcess(item) => [item]
    case _ => []
  }

  function EventsOf(items: seq<Item>): seq<Event> {
    seq(|items|, k requires 0 <= k < |items| => items[k].ev)
  }

  /** The events among a list of inputs. */
  function Processed(ins: seq<Input>): seq<Event> {
    if ins == [] then []
    else Processed(ins[..|ins| - 1]) + if ins[|ins| - 1].Process? then [ins[|ins| - 1].ev] else []
  }

  /** The items already processed: everything pushed but what is in hand or queued. */
  predicate Fifo(s: State) {
    && |s.pushed| == |s.turns| + |InHand(s)| + |s.queue|
    && s.pushed[|s.turns|..] == InHand(s) + s.queue
    && |s.queue| <= QUEUE_CAPACITY
    && EventsOf(s.pushed[..|s.turns|]) == Processed(s.inputs)
    && forall i :: 0 <= i < |s.turns| ==> s.turns[i].epoch == s.pushed[i].epoch
  }

  predicate Observation(s: State) {
    && s.observed <= s.reconnects
    && (s.flag <==> s.observed < s.reconnects)
    && (forall i :: 0 <= i < |s.pushed| ==> s.pushed[i].epoch <= s.reconnects)
    && (forall i, j :: 0 <= i < j < |s.turns| && !s.turns[j].draining ==> s.turns[i].epoch <= s.turns[j].observed)
    && (s.loop.LPop? || s.loop.LProcess? ==> forall i :: 0 <= i < |s.turns| ==> s.turns[i].epoch <= s.observed)
    && (s.loop.LDrain? || s.loop.LDrainProcess? || s.loop.LExited? ==> !s.running)
    && (!s.running ==> s.netDone)
    && (s.loop.LExited? ==> s.queue == [])
  }

  predicate Inv(s: State) {
    Fifo(s) && Observation(s)
  }

  lemma PushKeeps(s: State, ev: Event)
    requires Inv(s)
    ensures Inv(Step(s, Push(ev)))
  {
    var r := Step(s, Push(ev));
    if r.pushed != s.pushed {
      assert r.pushed[..|r.turns|] == s.pushed[..|s.turns|];
      assert r.pushed[|r.turns|..] == s.pushed[|s.turns|..] + [Item(ev, s.reconnects)];
      assert r.queue == s.queue + [Item(ev, s.reconnects)] && InHand(r) == InHand(s);
      assert InHand(s) + s.queue + [Item(ev, s.reconnects)] == InHand(r) + r.queue;
    }
    hide EventsOf, Processed;
  }

  lemma ProcessKeeps(s: State, now: int)
    requires Inv(s) && (s.loop.LProcess? || s.loop.LDrainProcess?)
    ensures Inv(StrategyStepOf(s, now))
  {
    var r := StrategyStepOf(s, now);
    var n := |s.turns|;
    assert s.pushed[n..][0] == s.loop.item;
    assert s.pushed[..n + 1] == s.pushed[..n] + [s.loop.item];
    assert EventsOf(s.pushed[..n + 1]) == EventsOf(s.pushed[..n]) + [s.loop.item.ev];
    assert r.inputs[..|r.inputs| - 1] == s.inputs;
    assert r.pushed[n + 1..] == s.pushed[n..][1..];
  }

  lemma FlagKeeps(s: State, now: int)
    requires Inv(s) && s.loop.LFlag?
    ensures Inv(StrategyStepOf(s, now))
  {
    if s.flag { assert (s.inputs + [Reconnect])[..|s.inputs|] == s.inputs; }
  }

  lemma PopKeeps(s: State, now: int)
    requires Inv(s) && (s.loop.LPop? || s.loop.LDrain?)
    ensures Inv(StrategyStepOf(s, now))
  {
    if s.queue != [] { assert s.queue == [s.queue[0]] + s.queue[1..]; }
  }

  lemma StrategyKeeps(s: State, now: int)
    requires Inv(s)
    ensures Inv(StrategyStepOf(s, now))
  {
    match s.loop
    case LProcess(_) => ProcessKeeps(s, now);
    case LDrainProcess(_) => ProcessKeeps(s, now);
    case LFlag => FlagKeeps(s, now);
    case LPop => PopKeeps(s, now);
    case LDrain => PopKeeps(s, now);
    case LTop =>
    case LExited =>
  }

  lemma {:induction false} RunKeeps(acts: seq<Action>)
    ensures Inv(Run(acts))
  {
    if acts != [] {
      var s, a := Run(acts[..|acts| - 1]), acts[|acts| - 1];
      RunKeeps(acts[..|acts| - 1]);
      match a
      case Push(ev) => PushKeeps(s, ev);
      case StrategyStep(now) => StrategyKeeps(s, now);
      case Reconnected =>
      case NetStop =>
      case Stop =>
    }
  }

  // ---- what a push and a turn come to

  /** The network's push is queued at the end exactly when the queue has room; otherwise it is refused. */
  lemma PushQueuedIffRoom(s: State, ev: Event)
    requires Inv(s) && !s.netDone
    ensures var r := Step(s, Push(ev));
      && (EventsOf(r.queue) == EventsOf(s.queue) + [ev] <==> |s.queue| < QUEUE_CAPACITY)
      && r.refused == s.refused + (if |s.queue| < QUEUE_CAPACITY then 0 else 1)
  {
    var r := Step(s, Push(ev));
    assert |s.queue| < QUEUE_CAPACITY ==> EventsOf(r.queue) == EventsOf(s.queue) + [ev];
    assert |EventsOf(r.queue)| == |r.queue|;
  }

  /** Four steps of the running loop from its top. */
  function Turn4(s: State, now: int): State {
    StrategyStepOf(StrategyStepOf(StrategyStepOf(StrategyStepOf(s, now), now), now), now)
  }

  /** A turn of the running loop alone observes a pending reconnect and then processes the first event queued. */
  lemma TurnTakesFirst(s: State, now: int)
    requires Inv(s) && s.running && s.loop.LTop? && s.queue != []
    ensures Turn4(s, now).inputs == s.inputs + (if s.flag then [Reconnect] else []) + [Process(s.queue[0].ev, now)]
    ensures Turn4(s, now).queue == s.queue[1..] && !Turn4(s, now).flag
  {
  }

  /** Once running is cleared, two steps of the drain process the first event queued, and one exits when there is none. */
  lemma DrainTakesFirst(s: State, now: int)
    requires Inv(s) && s.loop.LDrain?
    ensures if s.queue == [] then StrategyStepOf(s, now).loop.LExited?
      else StrategyStepOf(StrategyStepOf(s, now), now).inputs == s.inputs + [Process(s.queue[0].ev, now)]
  {
  }

  // ---- what every interleaving guarantees

  /** Events are processed in push order, each once; at exit every pushed event has been processed. */
  lemma EventsInOrder(acts: seq<Action>)
    ensures var s := Run(acts);
      && Processed(s.inputs) <= EventsOf(s.pushed)
      && |s.queue| <= QUEUE_CAPACITY
      && (s.loop.LExited? ==> Processed(s.inputs) == EventsOf(s.pushed))
  {
    RunKeeps(acts);
    var s := Run(acts);
    assert EventsOf(s.pushed)[..|s.turns|] == EventsOf(s.pushed[..|s.turns|]);
    if s.loop.LExited? { assert s.pushed[..|s.turns|] == s.pushed; }
  }

  /** An event pushed after reconnect r that the running loop processed before observing r. */
  predicate Early(t: Turn, r: nat) {
    !t.draining && t.observed < r <= t.epoch
  }

  /**
   In every interleaving, for each reconnect at most one event pushed after it is processed
   by the running loop before that reconnect's invalidation is observed.
   */
  lemma AtMostOneEarly(acts: seq<Action>, r: nat, i: nat, j: nat)
    requires var s := Run(acts); i < |s.turns| && j < |s.turns| && Early(s.turns[i], r) && Early(s.turns[j], r)
    ensures i == j
  {
    RunKeeps(acts);
  }

  // ---- when the book is synced

  /** The observed count never goes back, and once draining it stays. */
  predicate Ordered(s: State) {
    && (forall i :: 0 <= i < |s.turns| ==> s.turns[i].observed <= s.observed)
    && (forall i, j :: 0 <= i < j < |s.turns| ==> s.turns[i].observed <= s.turns[j].observed)
    && (forall i :: 0 <= i < |s.turns| && s.turns[i].draining ==>
          s.turns[i].observed == s.observed && (s.loop.LDrain? || s.loop.LDrainProcess? || s.loop.LExited?))
  }

  /** A step that neither processes an event nor checks the flag. */
  predicate Quiet(s: State, a: Action) {
    a.StrategyStep? ==> !s.loop.LProcess? && !s.loop.LDrainProcess? && !s.loop.LFlag?
  }

  lemma QuietStep(s: State, a: Action)
    requires Quiet(s, a)
    ensures var r := Step(s, a);
      r.inputs == s.inputs && r.turns == s.turns && s.pushed <= r.pushed && r.observed == s.observed
  {
  }

  lemma OrderedQuiet(s: State, a: Action)
    requires Ordered(s) && Quiet(s, a)
    ensures Ordered(Step(s, a))
  {
    QuietStep(s, a);
  }

  lemma OrderedProcess(s: State, now: int)
    requires Inv(s) && Ordered(s) && (s.loop.LProcess? || s.loop.LDrainProcess?)
    ensures Ordered(StrategyStepOf(s, now))
  {
    hide Fifo;
  }

  lemma OrderedCheck(s: State, now: int)
    requires Inv(s) && Ordered(s) && s.loop.LFlag?
    ensures Ordered(StrategyStepOf(s, now))
  {
    hide Fifo;
  }

  lemma OrderedStep(s: State, a: Action)
    requires Inv(s) && Ordered(s)
    ensures Ordered(Step(s, a))
  {
    if Quiet(s, a) {
      OrderedQuiet(s, a);
    } else if s.loop.LFlag? {
      OrderedCheck(s, a.now);
    } else {
      OrderedProcess(s, a.now);
    }
    hide Ordered, StrategyStepOf;
  }

  lemma {:induction false} OrderedRun(acts: seq<Action>)
    ensures Ordered(Run(acts))
  {
    if acts != [] {
      RunKeeps(acts[..|acts| - 1]);
      OrderedRun(acts[..|acts| - 1]);
      OrderedStep(Run(acts[..|acts| - 1]), acts[|acts| - 1]);
    }
  }

  /** The i-th processed event is a snapshot, processed when o reconnects had been observed. */
  predicate SnapshotTurn(s: State, i: nat, o: nat) {
    i < |s.turns| && i < |s.pushed| && s.pushed[i].ev.Snapshot? && s.turns[i].observed == o
  }

  /** One of the first n processed events is. */
  predicate SnapshotSeen(s: State, n: nat, o: nat) {
    exists i: nat :: i < n && SnapshotTurn(s, i, o)
  }

  /** Nothing about the first n turns changes when more is pushed or processed. */
  lemma SeenStays(s: State, r: State, n: nat, o: nat)
    requires n <= |s.turns| && |s.turns| <= |s.pushed|
    requires s.turns <= r.turns && s.pushed <= r.pushed
    ensures SnapshotSeen(r, n, o) <==> SnapshotSeen(s, n, o)
  {
    forall i: nat | i < n ensures SnapshotTurn(r, i, o) <==> SnapshotTurn(s, i, o) {
      assert r.turns[i] == s.turns[i] && r.pushed[i] == s.pushed[i];
    }
  }

  /** One more turn, of the item in hand. */
  lemma SeenNext(s: State, now: int, o: nat)
    requires Inv(s) && (s.loop.LProcess? || s.loop.LDrainProcess?)
    ensures var n, r := |s.turns|, StrategyStepOf(s, now);
      SnapshotSeen(r, n + 1, o) <==> SnapshotSeen(s, n, o) || (s.loop.item.ev.Snapshot? && s.observed == o)
  {
    var n, r := |s.turns|, StrategyStepOf(s, now);
    assert s.pushed[n..][0] == s.loop.item;
    SeenStays(s, r, n, o);
    assert SnapshotTurn(r, n, o) <==> s.loop.item.ev.Snapshot? && s.observed == o;
    if SnapshotSeen(r, n + 1, o) {
      var i: nat :| i < n + 1 && SnapshotTurn(r, i, o);
      if i < n { assert SnapshotSeen(r, n, o); }
    }
    if SnapshotSeen(s, n, o) {
      var i: nat :| i < n && SnapshotTurn(r, i, o);
      assert SnapshotTurn(r, i, o) && i < n + 1;
    }
  }

  predicate SyncedWhenSeen(s: State) {
    Synced(s.inputs) <==> SnapshotSeen(s, |s.turns|, s.observed)
  }

  lemma SyncedProcess(s: State, now: int)
    requires Inv(s) && SyncedWhenSeen(s) && (s.loop.LProcess? || s.loop.LDrainProcess?)
    ensures SyncedWhenSeen(StrategyStepOf(s, now))
  {
    var r := StrategyStepOf(s, now);
    SeenNext(s, now, s.observed);
    assert r.inputs[..|r.inputs| - 1] == s.inputs;
    hide SnapshotSeen, Fifo, Observation;
  }

  lemma SyncedCheck(s: State, now: int)
    requires Inv(s) && Ordered(s) && SyncedWhenSeen(s) && s.loop.LFlag?
    ensures SyncedWhenSeen(StrategyStepOf(s, now))
  {
    var r := StrategyStepOf(s, now);
    SeenStays(s, r, |s.turns|, s.observed);
    if s.flag { assert forall i: nat :: i < |s.turns| ==> !SnapshotTurn(r, i, r.observed); }
  }

  lemma SyncedStays(s: State, r: State)
    requires SyncedWhenSeen(s) && |s.turns| <= |s.pushed|
    requires r.inputs == s.inputs && r.turns == s.turns && s.pushed <= r.pushed && r.observed == s.observed
    ensures SyncedWhenSeen(r)
  {
    SeenStays(s, r, |s.turns|, s.observed);
    hide SnapshotSeen;
  }

  lemma SyncedStep(s: State, a: Action)
    requires Inv(s) && Ordered(s) && SyncedWhenSeen(s)
    ensures SyncedWhenSeen(Step(s, a))
  {
    if Quiet(s, a) {
      QuietStep(s, a);
      SyncedStays(s, Step(s, a));
    } else if s.loop.LFlag? {
      SyncedCheck(s, a.now);
    } else {
      SyncedProcess(s, a.now);
    }
    hide SyncedWhenSeen, StrategyStepOf;
  }

  /**
   In every interleaving the book is synced exactly when some snapshot was processed with as
   many reconnects observed as are observed now.
   */
  lemma {:induction false} SyncedIffSnapshotSeen(acts: seq<Action>)
    ensures var s := Run(acts);
      |s.turns| <= |s.pushed| && (Synced(s.inputs) <==> SnapshotSeen(s, |s.turns|, s.observed))
  {
    RunKeeps(acts);
    if acts != [] {
      var before := acts[..|acts| - 1];
      RunKeeps(before);
      OrderedRun(before);
      SyncedIffSnapshotSeen(before);
      SyncedStep(Run(before), acts[|acts| - 1]);
    }
  }

  /** The last snapshot among the processed events. */
  predicate LastSnapshot(s: State, i: nat) {
    && i < |s.turns| && i < |s.pushed| && s.pushed[i].ev.Snapshot?
    && forall j :: i < j < |s.turns| && j < |s.pushed| ==> !s.pushed[j].ev.Snapshot?
  }

  /**
   What the running loop's next flag check makes of the last snapshot it took: the book is
   unsynced after it exactly when a reconnect came that the snapshot's turn had not observed.
   */
  lemma NextCheckInvalidatesIff(acts: seq<Action>, i: nat, now: int)
    requires Run(acts).loop.LFlag? && LastSnapshot(Run(acts), i)
    ensures var s := Run(acts);
      !Synced(Step(s, StrategyStep(now)).inputs) <==> s.turns[i].observed < s.reconnects
  {
    var s, all := Run(acts), acts + [StrategyStep(now)];
    RunKeeps(acts);
    OrderedRun(acts);
    RunAppend(acts, StrategyStep(now));
    SyncedIffSnapshotSeen(all);
    var r := Run(all);
    assert r.turns == s.turns && r.pushed == s.pushed && r.observed == s.reconnects;
    OnlyLastCounts(r, i, s.reconnects);
  }

  /** At a count no turn exceeds, the last snapshot decides. */
  lemma OnlyLastCounts(s: State, i: nat, o: nat)
    requires LastSnapshot(s, i) && |s.turns| <= |s.pushed|
    requires forall j :: 0 <= j < |s.turns| ==> s.turns[j].observed <= o
    requires forall j, k :: 0 <= j < k < |s.turns| ==> s.turns[j].observed <= s.turns[k].observed
    ensures SnapshotSeen(s, |s.turns|, o) <==> s.turns[i].observed == o
  {
    if SnapshotSeen(s, |s.turns|, o) {
      var j: nat :| j < |s.turns| && SnapshotTurn(s, j, o);
      assert j <= i;
    }
    if s.turns[i].observed == o { assert SnapshotTurn(s, i, o); }
  }

  /** A snapshot taken while draining is never invalidated. */
  lemma DrainedSnapshotStays(acts: seq<Action>, i: nat)
    requires var s := Run(acts);
      i < |s.turns| && i < |s.pushed| && s.pushed[i].ev.Snapshot? && s.turns[i].draining
    ensures Synced(Run(acts).inputs)
  {
    OrderedRun(acts);
    SyncedIffSnapshotSeen(acts);
    assert SnapshotTurn(Run(acts), i, Run(acts).observed);
  }

  /**
   A snapshot pushed after the last reconnect, once every reconnect has been observed: it
   keeps the book synced exactly when it was not early, that is not processed by the running
   loop before that reconnect was observed. If it is the last snapshot, the book is synced
   exactly then.
   */
  lemma SnapshotLostIffEarly(acts: seq<Action>, i: nat)
    requires var s := Run(acts); !s.flag && LastSnapshot(s, i) && s.turns[i].epoch == s.reconnects
    ensures var s := Run(acts); Synced(s.inputs) <==> !Early(s.turns[i], s.reconnects)
  {
    RunKeeps(acts);
    OrderedRun(acts);
    SyncedIffSnapshotSeen(acts);
    OnlyLastCounts(Run(acts), i, Run(acts).observed);
  }

  // ---- the inputs behind each turn

  /** The shortest prefix of the inputs with n processed events. */
  function Upto(ins: seq<Input>, n: nat): (u: seq<Input>)
    ensures u <= ins
  {
    if ins == [] || |Processed(ins[..|ins| - 1])| < n then ins else Upto(ins[..|ins| - 1], n)
  }

  /** The n-th turn: its event, whether the book was synced before it, and whether anything lies between it and the turn before. */
  predicate TurnOk(s: State, n: nat)
    requires n < |s.turns| <= |s.pushed|
  {
    var u := Upto(s.inputs, n + 1);
    && u != [] && u[|u| - 1].Process? && u[|u| - 1].ev == s.pushed[n].ev
    && (Synced(u[..|u| - 1]) <==> SnapshotSeen(s, n, s.turns[n].observed))
    && (n > 0 && s.turns[n - 1].observed == s.turns[n].observed ==> u[..|u| - 1] == Upto(s.inputs, n))
  }

  predicate History(s: State) {
    && |Processed(s.inputs)| == |s.turns| <= |s.pushed|
    && (forall n: nat :: n < |s.turns| ==> TurnOk(s, n))
    && (s.turns != [] && s.turns[|s.turns| - 1].observed == s.observed ==> Upto(s.inputs, |s.turns|) == s.inputs)
  }

  lemma UptoStays(ins: seq<Input>, x: Input, n: nat)
    requires n <= |Processed(ins)|
    ensures Upto(ins + [x], n) == Upto(ins, n)
  {
    assert (ins + [x])[..|ins|] == ins;
  }

  lemma UptoAll(ins: seq<Input>, x: Input)
    ensures Upto(ins + [x], |Processed(ins)| + 1) == ins + [x]
  {
    assert (ins + [x])[..|ins|] == ins;
  }

  /** Turns already taken keep their history. */
  lemma TurnStays(s: State, r: State, n: nat)
    requires n < |s.turns| <= |s.pushed| && TurnOk(s, n)
    requires s.turns <= r.turns && s.pushed <= r.pushed && |r.turns| <= |r.pushed|
    requires Upto(r.inputs, n + 1) == Upto(s.inputs, n + 1) && Upto(r.inputs, n) == Upto(s.inputs, n)
    ensures TurnOk(r, n)
  {
    SeenStays(s, r, n, s.turns[n].observed);
    hide Upto, Synced, SnapshotSeen;
  }

  lemma ProcessedOne(ins: seq<Input>, x: Input)
    ensures Processed(ins + [x]) == Processed(ins) + if x.Process? then [x.ev] else []
  {
    assert (ins + [x])[..|ins|] == ins;
  }

  /** The turn a process step adds. */
  lemma NewTurn(s: State, now: int)
    requires Inv(s) && History(s) && SyncedWhenSeen(s) && (s.loop.LProcess? || s.loop.LDrainProcess?)
    ensures var r := StrategyStepOf(s, now);
      && |Processed(r.inputs)| == |r.turns| <= |r.pushed| && Upto(r.inputs, |r.turns|) == r.inputs
      && TurnOk(r, |s.turns|)
  {
    var r, n, x := StrategyStepOf(s, now), |s.turns|, Process(s.loop.item.ev, now);
    ProcessedOne(s.inputs, x);
    UptoAll(s.inputs, x);
    UptoStays(s.inputs, x, n);
    InHandIsNext(s);
    SeenStays(s, r, n, s.observed);
    assert r.inputs == s.inputs + [x] && r.inputs[..|r.inputs| - 1] == s.inputs;
    assert r.pushed == s.pushed && r.turns[..n] == s.turns && r.turns[n].observed == s.observed;
    hide Upto, Synced, SnapshotSeen, Processed, Inv, StrategyStepOf;
  }

  /** The event in hand is the one pushed after those already processed. */
  lemma InHandIsNext(s: State)
    requires Inv(s) && (s.loop.LProcess? || s.loop.LDrainProcess?)
    ensures |s.turns| < |s.pushed| && s.pushed[|s.turns|] == s.loop.item
  {
    assert s.pushed[|s.turns|..][0] == s.loop.item;
  }

  lemma OldTurns(s: State, x: Input, r: State)
    requires History(s) && r.inputs == s.inputs + [x]
    requires s.turns <= r.turns && s.pushed <= r.pushed && |r.turns| <= |r.pushed|
    ensures forall m: nat :: m < |s.turns| ==> TurnOk(r, m)
  {
    forall m: nat | m < |s.turns| ensures TurnOk(r, m) {
      UptoStays(s.inputs, x, m);
      UptoStays(s.inputs, x, m + 1);
      TurnStays(s, r, m);
    }
  }

  lemma HistoryOfProcess(s: State, now: int)
    requires Inv(s) && History(s) && SyncedWhenSeen(s) && (s.loop.LProcess? || s.loop.LDrainProcess?)
    ensures History(StrategyStepOf(s, now))
  {
    NewTurn(s, now);
    OldTurns(s, Process(s.loop.item.ev, now), StrategyStepOf(s, now));
    hide TurnOk, Upto, Processed, Inv;
  }

  lemma HistoryOfCheck(s: State, now: int)
    requires Inv(s) && Ordered(s) && History(s) && s.loop.LFlag?
    ensures History(StrategyStepOf(s, now))
  {
    var r := StrategyStepOf(s, now);
    if s.flag {
      ProcessedOne(s.inputs, Reconnect);
      OldTurns(s, Reconnect, r);
    } else {
      HistoryStays(s, r);
    }
    hide TurnOk, Upto, Processed;
  }

  lemma HistoryStays(s: State, r: State)
    requires History(s) && r.inputs == s.inputs && r.turns == s.turns && s.pushed <= r.pushed && r.observed == s.observed
    ensures History(r)
  {
    forall m: nat | m < |s.turns| ensures TurnOk(r, m) { TurnStays(s, r, m); }
  }

  lemma HistoryStep(s: State, a: Action)
    requires Inv(s) && Ordered(s) && History(s) && SyncedWhenSeen(s)
    ensures History(Step(s, a))
  {
    if Quiet(s, a) {
      QuietStep(s, a);
      HistoryStays(s, Step(s, a));
    } else if s.loop.LFlag? {
      HistoryOfCheck(s, a.now);
    } else {
      HistoryOfProcess(s, a.now);
    }
    hide History, StrategyStepOf;
  }

  lemma {:induction false} HistoryRun(acts: seq<Action>)
    ensures History(Run(acts))
  {
    if acts != [] {
      var before := acts[..|acts| - 1];
      RunKeeps(before);
      OrderedRun(before);
      SyncedIffSnapshotSeen(before);
      HistoryRun(before);
      HistoryStep(Run(before), acts[|acts| - 1]);
    }
  }

  lemma PrefixOk(c: Config, ins: seq<Input>, n: nat)
    requires RunOk(c, ins)
    ensures RunOk(c, Upto(ins, n))
  {
  }

  /**
   In every interleaving, an event processed while no snapshot had been processed at the same
   count of observed reconnects changes no book, moves no strategy and raises no order.
   */
  lemma UnsyncedEventsAreIgnored(c: Config, acts: seq<Action>, n: nat)
    requires n < |Run(acts).turns| && n < |Run(acts).pushed| && RunOk(c, Run(acts).inputs)
    requires !SnapshotSeen(Run(acts), n + 1, Run(acts).turns[n].observed)
    ensures var u := Upto(Run(acts).inputs, n + 1);
      && u != [] && u[|u| - 1].Process? && u[|u| - 1].ev == Run(acts).pushed[n].ev
      && LastIgnored(c, u)
  {
    UnsyncedPrefix(acts, n);
    PrefixOk(c, Run(acts).inputs, n + 1);
    LastIsIgnored(c, Upto(Run(acts).inputs, n + 1));
    hide *;
  }

  /** The last event of a run changed no book, moved no strategy and raised no order. */
  predicate LastIgnored(c: Config, u: seq<Input>) {
    && u != [] && RunOk(c, u)
    && Ignored(Pipeline.Run(c, u[..|u| - 1]), Pipeline.Run(c, u), LastOutcome(c, u))
  }

  lemma {:induction false} LastIsIgnored(c: Config, u: seq<Input>)
    requires RunOk(c, u) && u != [] && u[|u| - 1].Process? && !Synced(u)
    ensures LastIgnored(c, u)
  {
    OnlySyncedBooksTrade(c, u);
    hide Pipeline.Run, Pipeline.Inv, LastOutcome;
  }

  lemma UnsyncedPrefix(acts: seq<Action>, n: nat)
    requires n < |Run(acts).turns| && n < |Run(acts).pushed|
    requires !SnapshotSeen(Run(acts), n + 1, Run(acts).turns[n].observed)
    ensures var u := Upto(Run(acts).inputs, n + 1);
      u != [] && u[|u| - 1].Process? && u[|u| - 1].ev == Run(acts).pushed[n].ev && !Synced(u)
  {
    HistoryRun(acts);
    assert TurnOk(Run(acts), n);
    NoneAmongFewer(Run(acts), n, Run(acts).turns[n].observed);
    hide Run, Upto, SnapshotSeen;
  }

  lemma NoneAmongFewer(s: State, n: nat, o: nat)
    requires n < |s.turns| && n < |s.pushed| && s.turns[n].observed == o && !SnapshotSeen(s, n + 1, o)
    ensures !SnapshotSeen(s, n, o) && !s.pushed[n].ev.Snapshot?
  {
    assert forall i: nat :: i < n ==> !SnapshotTurn(s, i, o);
    assert !SnapshotTurn(s, n, o);
  }

  // ---- a message through the queue

  /** The events processed from position p on are these chunks, all at the count observed before them. */
  predicate Carries(s: State, p: nat, chunks: seq<seq<Change>>) {
    && 0 < p && p + |chunks| <= |s.turns| && |s.turns| <= |s.pushed|
    && (forall k :: 0 <= k < |chunks| ==> s.pushed[p + k].ev == L2Update(chunks[k]))
    && (forall k :: p <= k < p + |chunks| ==> s.turns[k].observed == s.turns[p - 1].observed)
  }

  /** Those events are consecutive inputs. */
  lemma {:induction false} CarriedInputs(s: State, p: nat, chunks: seq<seq<Change>>) returns (times: seq<int>)
    requires History(s) && Carries(s, p, chunks)
    ensures |times| == |chunks|
    ensures Upto(s.inputs, p + |chunks|) == Upto(s.inputs, p) + ChunkInputs(chunks, times)
  {
    if chunks == [] {
      times := [];
      assert Upto(s.inputs, p) + ChunkInputs(chunks, times) == Upto(s.inputs, p);
    } else {
      var n := |chunks| - 1;
      var earlier := CarriedInputs(s, p, chunks[..n]);
      assert TurnOk(s, p + n);
      var u := Upto(s.inputs, p + n + 1);
      times := earlier + [u[|u| - 1].now];
      LastOf(u);
      ChunkInputsNext(chunks, earlier, u[|u| - 1].now);
      hide Upto, ChunkInputs, History;
    }
  }

  lemma LastOf(u: seq<Input>)
    requires u != []
    ensures u == u[..|u| - 1] + [u[|u| - 1]]
  {
  }

  lemma ChunkInputsNext(chunks: seq<seq<Change>>, times: seq<int>, now: int)
    requires chunks != [] && |times| == |chunks| - 1
    ensures ChunkInputs(chunks, times + [now]) ==
      ChunkInputs(chunks[..|chunks| - 1], times) + [Process(L2Update(chunks[|chunks| - 1]), now)]
  {
  }

  /**
   Queueing is invisible to the book: chunks pushed at consecutive positions, processed with
   no reconnect observed since some snapshot before them, leave the book of the whole message.
   */
  lemma {:induction false} CarriedMessage(c: Config, acts: seq<Action>, p: nat, chunks: seq<seq<Change>>)
    requires RunOk(c, Run(acts).inputs) && Carries(Run(acts), p, chunks)
    requires SnapshotSeen(Run(acts), p, Run(acts).turns[p - 1].observed)
    ensures var ins := Run(acts).inputs;
      && RunOk(c, Upto(ins, p)) && RunOk(c, Upto(ins, p + |chunks|))
      && Pipeline.Run(c, Upto(ins, p + |chunks|)).book ==
           ApplyChanges(Pipeline.Run(c, Upto(ins, p)).book, Concat(chunks), c.tick)
  {
    var s := Run(acts);
    HistoryRun(acts);
    PrefixOk(c, s.inputs, p);
    PrefixOk(c, s.inputs, p + |chunks|);
    if chunks == [] { return; }
    var times := CarriedInputs(s, p, chunks);
    assert TurnOk(s, p);
    ChunkedMessage(c, Upto(s.inputs, p), chunks, times);
  }

  // ---- a snapshot that is lost

  /** Two strategy steps carry the thread from the top of the loop to its pop. */
  function LostSnapshotRun(snap: Event): seq<Action> {
    [StrategyStep(0), StrategyStep(0), Reconnected, Push(snap), StrategyStep(0), StrategyStep(0),
     StrategyStep(0), StrategyStep(0)]
  }

  lemma RunAppend(acts: seq<Action>, a: Action)
    ensures Run(acts + [a]) == Step(Run(acts), a)
  {
    assert (acts + [a])[..|acts|] == acts;
  }

  /** Two strategy steps after a run. */
  lemma TwoSteps(acts: seq<Action>)
    ensures Run(acts + [StrategyStep(0), StrategyStep(0)]) == StrategyStepOf(StrategyStepOf(Run(acts), 0), 0)
  {
    RunAppend(acts, StrategyStep(0));
    RunAppend(acts + [StrategyStep(0)], StrategyStep(0));
    assert acts + [StrategyStep(0), StrategyStep(0)] == acts + [StrategyStep(0)] + [StrategyStep(0)];
  }

  /** The first four actions: the thread about to pop, a reconnect flagged, the snapshot queued. */
  lemma SnapshotQueued(snap: Event)
    ensures var item := Item(snap, 1);
      Run([StrategyStep(0), StrategyStep(0), Reconnected, Push(snap)]) ==
        Init().(loop := LPop, flag := true, reconnects := 1, queue := [item], pushed := [item])
  {
    var step := StrategyStep(0);
    assert Run([]) == Init();
    TwoSteps([]);
    hide Run;
    assert [] + [step, step] == [step, step];
    RunAppend([step, step], Reconnected);
    RunAppend([step, step] + [Reconnected], Push(snap));
    assert [step, step, Reconnected, Push(snap)] == [step, step] + [Reconnected] + [Push(snap)];
  }

  /**
   A snapshot pushed after a reconnect can be popped between the flag check and the pop and
   be invalidated by the next check: the queue is then empty and the book still unsynced.
   */
  lemma SnapshotCanBeLost(snap: Event)
    requires snap.Snapshot?
    ensures var s := Run(LostSnapshotRun(snap));
      s.inputs == [Process(snap, 0), Reconnect] && s.queue == [] && !s.flag && !Synced(s.inputs)
  {
    var step := StrategyStep(0);
    var p4 := [step, step, Reconnected, Push(snap)];
    SnapshotQueued(snap);
    TwoSteps(p4);
    TwoSteps(p4 + [step, step]);
    assert LostSnapshotRun(snap) == p4 + [step, step] + [step, step];
    hide Run;
    var s := Run(p4 + [step, step]);
    assert s.inputs == [Process(snap, 0)] && s.queue == [] && s.flag && s.loop.LTop? && s.running;
  }
}
