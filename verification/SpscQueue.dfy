/** `SPSCQueue`: one producer and one consumer over a ring of 2^k slots. */
module SpscQueue {
  import opened Words

  /** A slot: never written or moved out of, half written, or holding a value. */
  datatype Cell<T> = Vacant | Torn | Full(value: T)

  datatype Producer<T> =
    | PIdle
    | PSawHead(v: T, h: u64)             // head loaded
    | PSawTail(v: T, h: u64, t: u64)     // tail loaded, about to compare
    | PWriting(v: T, h: u64)             // slot assignment under way
    | PWritten(v: T, h: u64)             // slot assigned, about to store head
    | PSizeHead(h: u64)                  // size(): head loaded first
    | PSizeTail(t: u64)                  // size(): tail loaded first

  datatype Consumer<T> =
    | CIdle
    | CSawTail(t: u64)                   // tail loaded
    | CSawHead(t: u64, h: u64)           // head loaded, about to compare
    | CReading(t: u64)                   // moving out of the slot
    | CRead(t: u64, v: T)                // value moved out, about to store tail

  /**
   Both threads around the ring, with 64-bit counters that wrap. Every atomic load or
   store and every slot access is its own step; a run is any list of actions, so any
   interleaving of the two threads. `pushed` and `popped` record the values whose push
   or pop has completed, `sizes` what size() returned, and `tornRead` whether a pop ever
   met a slot without a whole value.
   */
  datatype State<T> = State(
    head: u64, tail: u64, slots: seq<Cell<T>>,
    prod: Producer<T>, cons: Consumer<T>,
    pushed: seq<T>, popped: seq<T>, sizes: seq<u64>, tornRead: bool)

  /** The thread that moves, with the call it starts when it is idle. */
  datatype Action<T> = Push(v: T) | Size(headFirst: bool) | Produce | Pop | Consume

  /** Capacity is a power of two of at least 2. */
  predicate Log2Ok(k: nat) { 1 <= k <= 63 }

  function SlotIndex(k: nat, counter: u64): nat {
    And(counter, Pow2(k) - 1)
  }

  function Init<T>(k: nat): State<T> {
    State(0, 0, seq(Pow2(k), _ => Vacant), PIdle, CIdle, [], [], [], false)
  }

  /** One step of try_push or of size on the producer thread. */
  ghost function ProducerStep<T>(k: nat, s: State<T>): (r: State<T>)
    requires |s.slots| == Pow2(k)
    ensures |r.slots| == Pow2(k)
  {
    match s.prod
    case PIdle => s
    case PSawHead(v, h) => s.(prod := PSawTail(v, h, s.tail))
    case PSawTail(v, h, t) =>
      if Sub(h, t) >= Pow2(k) then s.(prod := PIdle)
      else IndexInRange(k, h); s.(prod := PWriting(v, h), slots := s.slots[SlotIndex(k, h) := Torn])
    case PWriting(v, h) =>
      IndexInRange(k, h); s.(prod := PWritten(v, h), slots := s.slots[SlotIndex(k, h) := Full(v)])
    case PWritten(v, h) => s.(prod := PIdle, head := Inc(h), pushed := s.pushed + [v])
    case PSizeHead(h) => s.(prod := PIdle, sizes := s.sizes + [Sub(h, s.tail)])
    case PSizeTail(t) => s.(prod := PIdle, sizes := s.sizes + [Sub(s.head, t)])
  }

  /** One step of try_pop on the consumer thread. */
  ghost function ConsumerStep<T>(k: nat, s: State<T>): (r: State<T>)
    requires |s.slots| == Pow2(k)
    ensures |r.slots| == Pow2(k)
  {
    match s.cons
    case CIdle => s
    case CSawTail(t) => s.(cons := CSawHead(t, s.head))
    case CSawHead(t, h) => if t == h then s.(cons := CIdle) else s.(cons := CReading(t))
    case CReading(t) =>
      IndexInRange(k, t);
      var i := SlotIndex(k, t);
      if s.slots[i].Full? then s.(cons := CRead(t, s.slots[i].value), slots := s.slots[i := Vacant])
      else s.(cons := CIdle, tornRead := true)
    case CRead(t, v) => s.(cons := CIdle, tail := Inc(t), popped := s.popped + [v])
  }

  ghost function Step<T>(k: nat, s: State<T>, a: Action<T>): (r: State<T>)
    requires |s.slots| == Pow2(k)
    ensures |r.slots| == Pow2(k)
  {
    match a
    case Push(v) => if s.prod.PIdle? then s.(prod := PSawHead(v, s.head)) else s
    case Size(headFirst) =>
      if !s.prod.PIdle? then s
      else if headFirst then s.(prod := PSizeHead(s.head)) else s.(prod := PSizeTail(s.tail))
    case Produce => ProducerStep(k, s)
    case Pop => if s.cons.CIdle? then s.(cons := CSawTail(s.tail)) else s
    case Consume => ConsumerStep(k, s)
  }

  ghost function Run<T>(k: nat, acts: seq<Action<T>>): (r: State<T>)
    ensures |r.slots| == Pow2(k)
  {
    if acts == [] then Init(k) else Step(k, Run(k, acts[..|acts| - 1]), acts[|acts| - 1])
  }

  // ---- the invariant

  /** Completed pushes not yet completely popped. */
  function Held<T>(s: State<T>): int {
    |s.pushed| - |s.popped|
  }

  ghost predicate Counters<T>(k: nat, s: State<T>) {
    && |s.slots| == Pow2(k)
    && 0 <= Held(s) <= Pow2(k)
    && s.head == |s.pushed| % TWO64
    && s.tail == |s.popped| % TWO64
    && s.popped == s.pushed[..|s.popped|]
  }

  /** The slot that holds, or will hold, the j-th value. */
  function SlotFor(k: nat, j: nat): (i: nat)
    ensures i < Pow2(k)
  {
    j % Pow2(k)
  }

  /** Every held value is whole in its slot, save the one being handed over. */
  ghost predicate HeldInSlots<T>(k: nat, s: State<T>)
    requires Counters(k, s)
  {
    forall j :: |s.popped| <= j < |s.pushed| && !(j == |s.popped| && s.cons.CRead?) ==>
      s.slots[SlotFor(k, j)] == Full(s.pushed[j])
  }

  ghost predicate ProducerOk<T>(k: nat, s: State<T>)
    requires Counters(k, s)
  {
    match s.prod
    case PIdle => true
    case PSawHead(_, h) => h == s.head
    case PSawTail(_, h, t) => h == s.head && Held(s) <= Sub(h, t) <= Pow2(k)
    case PWriting(_, h) => h == s.head && Held(s) < Pow2(k) && s.slots[SlotFor(k, |s.pushed|)] == Torn
    case PWritten(v, h) => h == s.head && Held(s) < Pow2(k) && s.slots[SlotFor(k, |s.pushed|)] == Full(v)
    case PSizeHead(h) => h == s.head
    case PSizeTail(t) => Held(s) <= Sub(s.head, t) <= Pow2(k)
  }

  ghost predicate ConsumerOk<T>(k: nat, s: State<T>)
    requires Counters(k, s)
  {
    match s.cons
    case CIdle => true
    case CSawTail(t) => t == s.tail
    case CSawHead(t, h) => t == s.tail && Sub(h, t) <= Held(s)
    case CReading(t) => t == s.tail && Held(s) > 0
    case CRead(t, v) => t == s.tail && Held(s) > 0 && v == s.pushed[|s.popped|]
  }

  ghost predicate Inv<T>(k: nat, s: State<T>) {
    && Counters(k, s)
    && HeldInSlots(k, s)
    && ProducerOk(k, s)
    && ConsumerOk(k, s)
    && !s.tornRead
    && forall i :: 0 <= i < |s.sizes| ==> s.sizes[i] <= Pow2(k)
  }

  // ---- arithmetic of the wrapped counters

  lemma Pow2Divides(k: nat)
    requires Log2Ok(k)
    ensures TWO64 == Pow2(64 - k) * Pow2(k) && 2 * Pow2(k) <= TWO64
  {
    TwoTo64();
    Pow2Add(64 - k, k);
    Pow2Mono(k, 63);
  }

  lemma {:induction false} IndexInRange(k: nat, c: u64)
    ensures SlotIndex(k, c) < Pow2(k)
  {
    MaskIsMod(c, k);
  }

  /** Masking a wrapped counter gives the slot of the unbounded count. */
  lemma {:induction false} WrappedIndex(k: nat, n: nat)
    requires Log2Ok(k)
    ensures SlotIndex(k, n % TWO64) == SlotFor(k, n)
  {
    MaskIsMod(n % TWO64, k);
    Pow2Divides(k);
    ModOfMod(n, Pow2(64 - k), Pow2(k));
  }

  lemma ModOfMod(n: nat, d: nat, p: nat)
    requires d > 0 && p > 0
    ensures d * p > 0 && (n % (d * p)) % p == n % p
  {
    var m := d * p;
    var q, c := n / m, n % m;
    var a, b := c / p, c % p;
    assert n == q * m + c && c == a * p + b;
    assert q * m == (q * d) * p;
    assert n == (q * d + a) * p + b;
    ModUnique(n, p, q * d + a, b);
  }

  /** The wrapped difference of two counters is their true difference while that fits in a word. */
  lemma WrappedSub(a: nat, b: nat)
    requires 0 <= a - b < TWO64
    ensures Sub(a % TWO64, b % TWO64) == a - b
  {
    var x, y := a % TWO64, b % TWO64;
    var q := b / TWO64 - a / TWO64;
    assert a == (a / TWO64) * TWO64 + x && b == (b / TWO64) * TWO64 + y;
    ModUnique(x - y, TWO64, q, a - b);
  }

  lemma WrappedInc(n: nat)
    ensures Inc(n % TWO64) == (n + 1) % TWO64
  {
  }

  /** Values fewer than a whole ring apart sit in different slots. */
  lemma SlotsApart(k: nat, i: nat, j: nat)
    requires i < j < i + Pow2(k)
    ensures SlotFor(k, i) != SlotFor(k, j)
  {
    var p := Pow2(k);
    if i % p == j % p {
      assert j - i == (j / p - i / p) * p;
      MultipleFarFromZero(j / p - i / p, p);
    }
  }

  // ---- every step keeps the invariant

  lemma {:induction false} InitOk<T>(k: nat)
    requires Log2Ok(k)
    ensures Inv(k, Init<T>(k))
  {
  }

  /** Writing the free slot disturbs no held value. */
  lemma {:induction false} WriteKeeps<T>(k: nat, s: State<T>, c: Cell<T>, p: Producer<T>)
    requires Log2Ok(k) && Inv(k, s) && Held(s) < Pow2(k)
    ensures HeldInSlots(k, s.(slots := s.slots[SlotFor(k, |s.pushed|) := c], prod := p))
  {
    var r := s.(slots := s.slots[SlotFor(k, |s.pushed|) := c], prod := p);
    forall j | |r.popped| <= j < |r.pushed| && !(j == |r.popped| && r.cons.CRead?)
      ensures r.slots[SlotFor(k, j)] == Full(r.pushed[j])
    {
      SlotsApart(k, j, |s.pushed|);
    }
  }

  lemma {:induction false} BeginWriteKeeps<T>(k: nat, s: State<T>)
    requires Log2Ok(k) && Inv(k, s) && s.prod.PSawTail?
    ensures Inv(k, ProducerStep(k, s))
  {
    if Sub(s.prod.h, s.prod.t) < Pow2(k) {
      WrappedIndex(k, |s.pushed|);
      WriteKeeps(k, s, Torn, PWriting(s.prod.v, s.prod.h));
    }
  }

  lemma {:induction false} EndWriteKeeps<T>(k: nat, s: State<T>)
    requires Log2Ok(k) && Inv(k, s)
    ensures s.prod.PWriting? ==> Inv(k, ProducerStep(k, s))
  {
    if s.prod.PWriting? {
      WrappedIndex(k, |s.pushed|);
      WriteKeeps(k, s, Full(s.prod.v), PWritten(s.prod.v, s.prod.h));
    }
  }

  /** The true difference is what the producer's load of tail sees. */
  lemma {:induction false} HeldIsSub<T>(k: nat, s: State<T>)
    requires Log2Ok(k) && Counters(k, s)
    ensures Sub(s.head, s.tail) == Held(s)
  {
    Pow2Divides(k);
    WrappedSub(|s.pushed|, |s.popped|);
  }

  lemma {:induction false} ProducerKeeps<T>(k: nat, s: State<T>)
    requires Log2Ok(k) && Inv(k, s)
    ensures Inv(k, ProducerStep(k, s))
  {
    HeldIsSub(k, s);
    match s.prod
    case PIdle =>
    case PSawHead(v, h) =>
    case PSawTail(v, h, t) => BeginWriteKeeps(k, s);
    case PWriting(v, h) => EndWriteKeeps(k, s);
    case PWritten(v, h) => PublishKeeps(k, s);
    case PSizeHead(h) =>
    case PSizeTail(t) =>
  }

  /** Storing head publishes the value just written. */
  lemma {:induction false} PublishKeeps<T>(k: nat, s: State<T>)
    requires Log2Ok(k) && Inv(k, s) && s.prod.PWritten?
    ensures Inv(k, ProducerStep(k, s))
  {
    WrappedInc(|s.pushed|);
    var r := ProducerStep(k, s);
    assert r.pushed[..|r.popped|] == s.pushed[..|s.popped|];
    assert Counters(k, r);
  }

  lemma {:induction false} ConsumerKeeps<T>(k: nat, s: State<T>)
    requires Log2Ok(k) && Inv(k, s)
    ensures Inv(k, ConsumerStep(k, s))
  {
    HeldIsSub(k, s);
    match s.cons
    case CIdle =>
    case CSawTail(t) =>
    case CSawHead(t, h) => if t != h { NonEmptySeen(k, s); }
    case CReading(t) => MoveOutKeeps(k, s);
    case CRead(t, v) => RetireKeeps(k, s);
  }

  lemma {:induction false} NonEmptySeen<T>(k: nat, s: State<T>)
    requires Inv(k, s) && s.cons.CSawHead? && s.cons.t != s.cons.h
    ensures Held(s) > 0
  {
    var t, h := s.cons.t, s.cons.h;
    if Sub(h, t) == 0 { ModUnique(h - t, TWO64, if h >= t then 0 else -1, if h >= t then h - t else h - t + TWO64); }
  }

  lemma {:induction false} MoveOutKeeps<T>(k: nat, s: State<T>)
    requires Log2Ok(k) && Inv(k, s) && s.cons.CReading?
    ensures Inv(k, ConsumerStep(k, s))
  {
    var j := |s.popped|;
    WrappedIndex(k, j);
    var r := ConsumerStep(k, s);
    assert s.slots[SlotFor(k, j)] == Full(s.pushed[j]);
    forall i | j < i < |s.pushed| ensures r.slots[SlotFor(k, i)] == Full(r.pushed[i]) {
      SlotsApart(k, j, i);
    }
    if s.prod.PWriting? || s.prod.PWritten? { SlotsApart(k, j, |s.pushed|); }
  }

  /** Storing tail frees the slot just emptied. */
  lemma {:induction false} RetireKeeps<T>(k: nat, s: State<T>)
    requires Log2Ok(k) && Inv(k, s) && s.cons.CRead?
    ensures Inv(k, ConsumerStep(k, s))
  {
    WrappedInc(|s.popped|);
    var r := ConsumerStep(k, s);
    assert r.popped == s.pushed[..|s.popped| + 1];
    assert Counters(k, r);
  }

  lemma {:induction false} StepKeeps<T>(k: nat, s: State<T>, a: Action<T>)
    requires Log2Ok(k) && Inv(k, s)
    ensures Inv(k, Step(k, s, a))
  {
    HeldIsSub(k, s);
    match a
    case Push(v) =>
    case Size(_) =>
    case Produce => ProducerKeeps(k, s);
    case Pop =>
    case Consume => ConsumerKeeps(k, s);
  }

  lemma {:induction false} RunKeeps<T>(k: nat, acts: seq<Action<T>>)
    requires Log2Ok(k)
    ensures Inv(k, Run(k, acts))
  {
    if acts != [] {
      RunKeeps(k, acts[..|acts| - 1]);
      StepKeeps(k, Run(k, acts[..|acts| - 1]), acts[|acts| - 1]);
    }
  }

  // ---- what every interleaving guarantees

  /** The slot a thread is accessing right now, if any. */
  function Writing<T>(k: nat, s: State<T>): int {
    match s.prod
    case PWriting(_, h) => SlotIndex(k, h)
    case _ => -1
  }

  function Reading<T>(k: nat, s: State<T>): int {
    match s.cons
    case CReading(t) => SlotIndex(k, t)
    case _ => -1
  }

  /**
   In every interleaving: popped values are a prefix of pushed values, the ring holds
   the rest and never more than its capacity, no slot is written while it is read, no
   pop meets a half-written slot, and size() on the producer thread stays in range.
   */
  lemma {:induction false} QueueIsSafe<T>(k: nat, acts: seq<Action<T>>)
    requires Log2Ok(k)
    ensures var s := Run(k, acts);
      && s.popped <= s.pushed
      && 0 <= Held(s) <= Pow2(k)
      && (forall j :: |s.popped| <= j < |s.pushed| && !(j == |s.popped| && s.cons.CRead?) ==>
            s.slots[SlotFor(k, j)] == Full(s.pushed[j]))
      && (s.cons.CRead? ==> |s.popped| < |s.pushed| && s.cons.v == s.pushed[|s.popped|])
      && !(Writing(k, s) >= 0 && Writing(k, s) == Reading(k, s))
      && !s.tornRead
      && (forall i :: 0 <= i < |s.sizes| ==> s.sizes[i] <= Pow2(k))
  {
    RunKeeps(k, acts);
    var s := Run(k, acts);
    if s.prod.PWriting? && s.cons.CReading? {
      WrappedIndex(k, |s.pushed|);
      WrappedIndex(k, |s.popped|);
      SlotsApart(k, |s.popped|, |s.pushed|);
    }
  }

  // ---- refinement of a bounded FIFO

  /** What the queue holds, as an abstract sequence. */
  function Contents<T>(s: State<T>): seq<T>
    requires |s.popped| <= |s.pushed|
  {
    s.pushed[|s.popped|..]
  }

  /** Every step leaves the abstract queue alone, appends one value to it, or takes its first value. */
  lemma {:induction false} StepIsFifo<T>(k: nat, s: State<T>, a: Action<T>)
    requires Log2Ok(k) && Inv(k, s)
    ensures Inv(k, Step(k, s, a))
    ensures var r := Step(k, s, a);
      if a.Produce? && s.prod.PWritten? then
        Contents(r) == Contents(s) + [s.prod.v] && |Contents(s)| < Pow2(k)
      else if a.Consume? && s.cons.CRead? then
        Contents(s) != [] && Contents(s) == [s.cons.v] + Contents(r) && r.popped == s.popped + [s.cons.v]
      else Contents(r) == Contents(s)
  {
    StepKeeps(k, s, a);
    if a.Produce? && s.prod.PWritten? {
      PublishAppends(k, s);
    } else if a.Consume? && s.cons.CRead? {
      RetireTakesFirst(k, s);
    } else {
      OthersMoveNothing(k, s, a);
    }
    hide Counters, HeldInSlots, ProducerOk, ConsumerOk;
  }

  lemma {:induction false} OthersMoveNothing<T>(k: nat, s: State<T>, a: Action<T>)
    requires |s.slots| == Pow2(k) && !(a.Produce? && s.prod.PWritten?) && !(a.Consume? && s.cons.CRead?)
    ensures Step(k, s, a).pushed == s.pushed && Step(k, s, a).popped == s.popped
  {
  }

  lemma {:induction false} PublishAppends<T>(k: nat, s: State<T>)
    requires Inv(k, s) && s.prod.PWritten?
    ensures var r := ProducerStep(k, s);
      && |r.popped| <= |r.pushed|
      && Contents(r) == Contents(s) + [s.prod.v] && |Contents(s)| < Pow2(k)
  {
  }

  lemma {:induction false} RetireTakesFirst<T>(k: nat, s: State<T>)
    requires Inv(k, s) && s.cons.CRead?
    ensures var r := ConsumerStep(k, s);
      && |r.popped| <= |r.pushed|
      && Contents(s) != [] && Contents(s) == [s.cons.v] + Contents(r) && r.popped == s.popped + [s.cons.v]
  {
    assert s.pushed[|s.popped|..] == [s.pushed[|s.popped|]] + s.pushed[|s.popped| + 1..];
  }

  /** A push decides to refuse exactly when its load of tail meets a full queue. */
  lemma {:induction false} RefusedIffFull<T>(k: nat, s: State<T>)
    requires Log2Ok(k) && Inv(k, s) && s.prod.PSawHead?
    ensures var r := ProducerStep(k, s);
      r.prod.PSawTail? && (Sub(r.prod.h, r.prod.t) >= Pow2(k) <==> |Contents(s)| == Pow2(k))
  {
    HeldIsSub(k, s);
  }

  /** size() read head first is exact at its second load; read tail first it may only be too high. */
  lemma {:induction false} SizeSeen<T>(k: nat, s: State<T>)
    requires Log2Ok(k) && Inv(k, s) && (s.prod.PSizeHead? || s.prod.PSizeTail?)
    ensures var r := ProducerStep(k, s);
      && |r.sizes| == |s.sizes| + 1
      && var size := r.sizes[|s.sizes|];
         |Contents(s)| <= size <= Pow2(k) && (s.prod.PSizeHead? ==> size == |Contents(s)|)
  {
    HeldIsSub(k, s);
  }

  /** A pop decides it found nothing exactly when its load of head meets an empty queue. */
  lemma {:induction false} NothingIffEmpty<T>(k: nat, s: State<T>)
    requires Log2Ok(k) && Inv(k, s) && s.cons.CSawTail?
    ensures var r := ConsumerStep(k, s);
      r.cons.CSawHead? && (r.cons.t == r.cons.h <==> Contents(s) == [])
  {
    HeldIsSub(k, s);
    if s.tail == s.head { ModUnique(0, TWO64, 0, 0); }
    if Contents(s) == [] { assert |s.pushed| == |s.popped|; }
  }

  // ---- calls come to their end

  /** Further actions from any state. */
  ghost function Steps<T>(k: nat, s: State<T>, acts: seq<Action<T>>): (r: State<T>)
    requires |s.slots| == Pow2(k)
    ensures |r.slots| == Pow2(k)
    decreases |acts|
  {
    if acts == [] then s else Steps(k, Step(k, s, acts[0]), acts[1..])
  }

  /** How many of the actions are steps of try_pop, or of the producer's call. */
  function Consumes<T>(acts: seq<Action<T>>): nat {
    if acts == [] then 0 else (if acts[0].Consume? then 1 else 0) + Consumes(acts[1..])
  }

  function Produces<T>(acts: seq<Action<T>>): nat {
    if acts == [] then 0 else (if acts[0].Produce? then 1 else 0) + Produces(acts[1..])
  }

  /** Steps a pop that saw a value still has to make. */
  function PopStage<T>(s: State<T>): nat {
    match s.cons
    case CSawHead(t, h) => if t == h then 0 else 3
    case CReading(_) => 2
    case CRead(_, _) => 1
    case _ => 0
  }

  lemma {:induction false} PopAdvances<T>(k: nat, s: State<T>, a: Action<T>)
    requires Log2Ok(k) && Inv(k, s) && PopStage(s) > 0
    ensures |s.popped| < |s.pushed| && s.pushed <= Step(k, s, a).pushed
    ensures var r := Step(k, s, a);
      if a.Consume? then
        && PopStage(r) == PopStage(s) - 1
        && r.popped == if PopStage(s) == 1 then s.popped + [s.pushed[|s.popped|]] else s.popped
      else PopStage(r) == PopStage(s) && r.popped == s.popped
  {
    if s.cons.CSawHead? { NonEmptySeen(k, s); }
    if s.cons.CReading? {
      WrappedIndex(k, |s.popped|);
      assert s.slots[SlotFor(k, |s.popped|)] == Full(s.pushed[|s.popped|]);
    }
  }

  lemma {:induction false} NoConsumeNoPop<T>(k: nat, s: State<T>, acts: seq<Action<T>>)
    requires |s.slots| == Pow2(k) && Consumes(acts) == 0
    ensures Steps(k, s, acts).popped == s.popped
    decreases |acts|
  {
    if acts != [] {
      assert Step(k, s, acts[0]).popped == s.popped;
      NoConsumeNoPop(k, Step(k, s, acts[0]), acts[1..]);
    }
  }

  /** A pop under way takes the first value within its own remaining steps, whatever the producer does between them. */
  lemma {:induction false} PopCompletes<T>(k: nat, s: State<T>, acts: seq<Action<T>>)
    requires Log2Ok(k) && Inv(k, s) && PopStage(s) > 0 && Consumes(acts) == PopStage(s)
    ensures |s.popped| < |s.pushed| && Steps(k, s, acts).popped == s.popped + [s.pushed[|s.popped|]]
    decreases |acts|
  {
    var r := Step(k, s, acts[0]);
    PopAdvances(k, s, acts[0]);
    StepKeeps(k, s, acts[0]);
    if PopStage(r) > 0 { PopCompletes(k, r, acts[1..]); } else { NoConsumeNoPop(k, r, acts[1..]); }
    hide Inv, Step, PopStage;
  }

  /**
   With any producer steps in between: a pop whose load of head meets a non-empty queue takes
   the first value within its next three steps, one that meets an empty queue ends with its
   next step and takes nothing.
   */
  lemma {:induction false} PopDelivers<T>(k: nat, s: State<T>, acts: seq<Action<T>>)
    requires Log2Ok(k) && Inv(k, s) && s.cons.CSawTail?
    ensures var r := Step(k, s, Consume);
      && (Contents(s) != [] && Consumes(acts) == 3 ==> Steps(k, r, acts).popped == s.popped + [Contents(s)[0]])
      && (Contents(s) == [] ==> Step(k, r, Consume).cons.CIdle? && Step(k, r, Consume).popped == s.popped)
  {
    var r := Step(k, s, Consume);
    NothingIffEmpty(k, s);
    StepKeeps(k, s, Consume);
    assert r.pushed == s.pushed && r.popped == s.popped;
    if Contents(s) != [] && Consumes(acts) == 3 { PopCompletes(k, r, acts); }
  }

  /** One action over and over. */
  function Again<T>(a: Action<T>, n: nat): seq<Action<T>> {
    seq(n, _ => a)
  }

  lemma AgainNext<T>(a: Action<T>, n: nat)
    requires n > 0
    ensures Again(a, n)[0] == a && Again(a, n)[1..] == Again(a, n - 1)
  {
  }

  lemma {:induction false} CountAgain<T>(n: nat)
    ensures Consumes<T>(Again(Consume, n)) == n && Produces<T>(Again(Produce, n)) == n
  {
    if n > 0 {
      AgainNext<T>(Consume, n);
      AgainNext<T>(Produce, n);
      CountAgain<T>(n - 1);
    }
  }

  /** An action that does nothing to a state, any number of times. */
  lemma {:induction false} StaysPut<T>(k: nat, s: State<T>, a: Action<T>, n: nat)
    requires |s.slots| == Pow2(k) && Step(k, s, a) == s
    ensures Steps(k, s, Again(a, n)) == s
  {
    if n > 0 {
      AgainNext(a, n);
      StaysPut(k, s, a, n - 1);
    }
  }

  /** A pop alone takes the first value when there is one, and nothing otherwise. */
  lemma {:induction false} LonePop<T>(k: nat, s: State<T>)
    requires Log2Ok(k) && Inv(k, s) && s.cons.CIdle?
    ensures Steps(k, Step(k, s, Pop), Again(Consume, 4)).popped ==
      if Contents(s) != [] then s.popped + [Contents(s)[0]] else s.popped
  {
    var s1 := Step(k, s, Pop);
    var s2 := Step(k, s1, Consume);
    StepKeeps(k, s, Pop);
    AgainNext<T>(Consume, 4);
    AgainNext<T>(Consume, 3);
    CountAgain<T>(3);
    PopDelivers(k, s1, Again(Consume, 3));
    assert Contents(s1) == Contents(s) && s1.popped == s.popped;
    if Contents(s) == [] { StaysPut(k, Step(k, s2, Consume), Consume, 2); }
    hide Inv, Again, Consumes;
  }

  /** Steps a push that saw room still has to make. */
  function PushStage<T>(k: nat, s: State<T>): nat {
    match s.prod
    case PSawTail(_, h, t) => if Sub(h, t) >= Pow2(k) then 0 else 3
    case PWriting(_, _) => 2
    case PWritten(_, _) => 1
    case _ => 0
  }

  lemma {:induction false} PushAdvances<T>(k: nat, s: State<T>, a: Action<T>)
    requires |s.slots| == Pow2(k) && PushStage(k, s) > 0
    ensures var r := Step(k, s, a);
      if a.Produce? then
        && PushStage(k, r) == PushStage(k, s) - 1
        && r.pushed == (if PushStage(k, s) == 1 then s.pushed + [s.prod.v] else s.pushed)
        && (PushStage(k, s) > 1 ==> r.prod.v == s.prod.v)
      else PushStage(k, r) == PushStage(k, s) && r.pushed == s.pushed && r.prod == s.prod
  {
  }

  lemma {:induction false} NoProduceNoPush<T>(k: nat, s: State<T>, acts: seq<Action<T>>)
    requires |s.slots| == Pow2(k) && Produces(acts) == 0
    ensures Steps(k, s, acts).pushed == s.pushed
    decreases |acts|
  {
    if acts != [] {
      assert Step(k, s, acts[0]).pushed == s.pushed;
      NoProduceNoPush(k, Step(k, s, acts[0]), acts[1..]);
    }
  }

  lemma {:induction false} PushCompletes<T>(k: nat, s: State<T>, acts: seq<Action<T>>)
    requires |s.slots| == Pow2(k) && PushStage(k, s) > 0 && Produces(acts) == PushStage(k, s)
    ensures Steps(k, s, acts).pushed == s.pushed + [s.prod.v]
    decreases |acts|
  {
    var r := Step(k, s, acts[0]);
    PushAdvances(k, s, acts[0]);
    if PushStage(k, r) > 0 { PushCompletes(k, r, acts[1..]); } else { NoProduceNoPush(k, r, acts[1..]); }
    hide Step;
  }

  /**
   With any consumer steps in between: a push whose load of tail meets a queue with room
   appends its value within its next three steps, one that meets a full queue ends with its
   next step and appends nothing.
   */
  lemma {:induction false} PushDelivers<T>(k: nat, s: State<T>, acts: seq<Action<T>>)
    requires Log2Ok(k) && Inv(k, s) && s.prod.PSawHead?
    ensures var r := Step(k, s, Produce);
      && (|Contents(s)| < Pow2(k) && Produces(acts) == 3 ==> Steps(k, r, acts).pushed == s.pushed + [s.prod.v])
      && (|Contents(s)| == Pow2(k) ==> Step(k, r, Produce).prod.PIdle? && Step(k, r, Produce).pushed == s.pushed)
      && |Contents(s)| <= Pow2(k)
  {
    var r := Step(k, s, Produce);
    RefusedIffFull(k, s);
    assert r.pushed == s.pushed && r.prod.v == s.prod.v;
    if |Contents(s)| < Pow2(k) && Produces(acts) == 3 { PushCompletes(k, r, acts); }
  }

  /** A push alone appends its value exactly when there is room. */
  lemma {:induction false} LonePush<T>(k: nat, s: State<T>, v: T)
    requires Log2Ok(k) && Inv(k, s) && s.prod.PIdle?
    ensures Steps(k, Step(k, s, Push(v)), Again(Produce, 4)).pushed ==
      if |Contents(s)| < Pow2(k) then s.pushed + [v] else s.pushed
  {
    var s1 := Step(k, s, Push(v));
    var s2 := Step(k, s1, Produce);
    StepKeeps(k, s, Push(v));
    AgainNext<T>(Produce, 4);
    AgainNext<T>(Produce, 3);
    CountAgain<T>(3);
    PushDelivers(k, s1, Again(Produce, 3));
    assert Contents(s1) == Contents(s) && s1.pushed == s.pushed && s1.prod.v == v;
    if |Contents(s)| == Pow2(k) { StaysPut(k, Step(k, s2, Produce), Produce, 2); }
    hide Inv, Again, Produces;
  }
}
