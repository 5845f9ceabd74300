/** `Logger`: any number of logging threads, a ring of records and one drainer. */
module LoggerRing {
  import opened Words

  const RING: nat := 4096

  /** The text of a slot: never written, half written, or whole. */
  datatype Cell<T> = Blank | Torn | Whole(value: T)

  /** Where a logging thread stands; a thread outside log() is absent. */
  datatype Call<T> =
    | Loaded(r: T, h: nat)      // head known, about to load tail and test for room
    | Checked(r: T, h: nat)     // room seen, about to compare-and-swap head
    | Dropping(r: T)            // no room seen, about to count the drop
    | Claimed(r: T, h: nat)     // owns position h, about to write its slot
    | Writing(r: T, h: nat)     // slot half written
    | Stamping(r: T, h: nat)    // slot written, about to store ready

  datatype Drainer =
    | DTop                      // about to load head
    | DHead(h: nat)             // about to load tail
    | DBoth(h: nat, t: nat)     // about to compare
    | DIdle(h: nat)             // nothing pending, about to load running
    | DScan(h: nat, t: nat)     // about to test ready of position t
    | DPrint(h: nat, t: nat)    // printing position t
    | DStore(h: nat, t: nat)    // about to store tail
    | DExited(h: nat)

  /**
   Producer threads claim ring slots by compare-and-swap on head, write their record and
   stamp it ready; the drainer prints in order. Each atomic operation and each slot access
   is its own step, and locals may be stale; a run is any list of actions. Positions and
   stamps are kept as true counts; the program holds them as 64-bit words, so every test
   it makes compares `Word`s of them. `claims` records the records in claim order and
   `output` what was printed.
   */
  datatype State<T> = State(
    head: nat, tail: nat, dropped: nat, running: bool,
    ready: seq<nat>, slots: seq<Cell<T>>,
    threads: map<nat, Call<T>>, drainer: Drainer,
    claims: seq<T>, output: seq<T>, calls: nat, tornRead: bool)

  /** A thread calls log, a thread advances (its weak CAS may fail spuriously), the drainer advances, stop(). */
  datatype Action<T> = Log(id: nat, r: T) | Advance(id: nat, spurious: bool) | Drain | Stop

  function Slot(p: nat): (i: nat)
    ensures i < RING && i == p % RING
  {
    MaskIsMod(p, 12);
    assert Pow2(12) == RING;
    And(p, RING - 1)
  }

  /** What a uint64_t counter holds after n increments from zero. */
  function Word(n: nat): u64 {
    n % TWO64
  }

  /** head - tail on uint64_t */
  function Behind(h: nat, t: nat): nat {
    (h - t) % TWO64
  }

  function Init<T>(): State<T> {
    State(0, 0, 0, true, seq(RING, _ => 0), seq(RING, _ => Blank), map[], DTop, [], [], 0, false)
  }

  ghost predicate Shape<T>(s: State<T>) {
    |s.ready| == RING && |s.slots| == RING
  }

  ghost function CallStep<T>(s: State<T>, id: nat, spurious: bool): (r: State<T>)
    requires Shape(s) && id in s.threads
    ensures Shape(r)
  {
    match s.threads[id]
    case Loaded(r, h) =>
      s.(threads := s.threads[id := if Behind(h, s.tail) >= RING then Dropping(r) else Checked(r, h)])
    case Checked(r, h) =>
      if Word(s.head) == Word(h) && !spurious then
        s.(head := s.head + 1, claims := s.claims + [r], threads := s.threads[id := Claimed(r, s.head)])
      else
        s.(threads := s.threads[id := Loaded(r, s.head)])
    case Dropping(r) => s.(dropped := s.dropped + 1, threads := s.threads - {id})
    case Claimed(r, h) => s.(slots := s.slots[Slot(h) := Torn], threads := s.threads[id := Writing(r, h)])
    case Writing(r, h) => s.(slots := s.slots[Slot(h) := Whole(r)], threads := s.threads[id := Stamping(r, h)])
    case Stamping(r, h) => s.(ready := s.ready[Slot(h) := h + 1], threads := s.threads - {id})
  }

  ghost function DrainStep<T>(s: State<T>): (r: State<T>)
    requires Shape(s)
    ensures Shape(r)
  {
    match s.drainer
    case DTop => s.(drainer := DHead(s.head))
    case DHead(h) => s.(drainer := DBoth(h, s.tail))
    case DBoth(h, t) => s.(drainer := if Word(t) == Word(h) then DIdle(h) else DScan(h, t))
    case DIdle(h) => s.(drainer := if s.running then DTop else DExited(h))
    case DScan(h, t) =>
      s.(drainer := if Word(t) < Word(h) && Word(s.ready[Slot(t)]) == Word(t + 1) then DPrint(h, t) else DStore(h, t))
    case DPrint(h, t) =>
      if s.slots[Slot(t)].Whole? then
        s.(output := s.output + [s.slots[Slot(t)].value], drainer := DScan(h, t + 1))
      else s.(tornRead := true, drainer := DScan(h, t + 1))
    case DStore(h, t) => s.(tail := t, drainer := DTop)
    case DExited(_) => s
  }

  ghost function Step<T>(s: State<T>, a: Action<T>): (r: State<T>)
    requires Shape(s)
    ensures Shape(r)
  {
    match a
    case Log(id, r) =>
      if id in s.threads then s
      else s.(threads := s.threads[id := Loaded(r, s.head)], calls := s.calls + 1)
    case Advance(id, spurious) => if id in s.threads then CallStep(s, id, spurious) else s
    case Drain => DrainStep(s)
    case Stop => s.(running := false)
  }

  ghost function Run<T>(acts: seq<Action<T>>): (r: State<T>)
    ensures Shape(r)
  {
    if acts == [] then Init() else Step(Run(acts[..|acts| - 1]), acts[|acts| - 1])
  }

  /** A compare-and-swap about to run compares a head value loaded fewer than 2^64 claims ago. */
  ghost predicate RecentHead<T>(s: State<T>, a: Action<T>) {
    a.Advance? && a.id in s.threads && s.threads[a.id].Checked? ==> s.head - s.threads[a.id].h < TWO64
  }

  /** Every compare-and-swap of the run does. */
  ghost predicate Timely<T>(acts: seq<Action<T>>) {
    acts == [] || (Timely(acts[..|acts| - 1]) && RecentHead(Run(acts[..|acts| - 1]), acts[|acts| - 1]))
  }

  // ---- the invariant

  /** Positions printed so far: the drainer's local tail when it has one. */
  function Printed<T>(s: State<T>): nat {
    match s.drainer
    case DBoth(_, t) => t
    case DScan(_, t) => t
    case DPrint(_, t) => t
    case DStore(_, t) => t
    case _ => s.tail
  }

  predicate Owns<T>(c: Call<T>) {
    c.Claimed? || c.Writing? || c.Stamping?
  }

  ghost predicate Positions<T>(s: State<T>) {
    && Shape(s)
    && |s.claims| == s.head
    && s.tail <= Printed(s) <= s.head <= s.tail + RING
    && s.output == s.claims[..Printed(s)]
    && !s.tornRead
    && forall i :: 0 <= i < RING ==> s.ready[i] <= s.head
  }

  /** The slot of each position of the current lap holds its own stamp, or the one of the lap before. */
  ghost predicate RecentStamps<T>(s: State<T>)
    requires Shape(s)
  {
    forall p :: Printed(s) <= p < Printed(s) + RING ==> StampOf(s.ready[Slot(p)], p)
  }

  predicate StampOf(stamp: nat, p: nat) {
    stamp == p + 1 || stamp + RING == p + 1 || (stamp == 0 && p < RING)
  }

  /** A stamped position that is still to be printed has its whole record in its slot. */
  ghost predicate StampsTell<T>(s: State<T>)
    requires Positions(s)
  {
    forall p :: Printed(s) <= p < s.head && s.ready[Slot(p)] == p + 1 ==> s.slots[Slot(p)] == Whole(s.claims[p])
  }

  ghost predicate CallOk<T>(s: State<T>, c: Call<T>)
    requires Positions(s)
  {
    match c
    case Loaded(_, h) => h <= s.head
    case Checked(_, h) => h <= s.head && (h == s.head ==> s.head - s.tail < RING)
    case Dropping(_) => true
    case Claimed(r, h) => OwnerOk(s, r, h)
    case Writing(r, h) => OwnerOk(s, r, h) && s.slots[Slot(h)] == Torn
    case Stamping(r, h) => OwnerOk(s, r, h) && s.slots[Slot(h)] == Whole(r)
  }

  ghost predicate OwnerOk<T>(s: State<T>, r: T, h: nat)
    requires Positions(s)
  {
    Printed(s) <= h < s.head && s.claims[h] == r && s.ready[Slot(h)] != h + 1
  }

  ghost predicate CallsOk<T>(s: State<T>)
    requires Positions(s)
  {
    forall id :: id in s.threads ==> CallOk(s, s.threads[id])
  }

  /** No two threads own the same position. */
  ghost predicate OwnersDiffer<T>(s: State<T>) {
    forall a, b :: a in s.threads && b in s.threads && a != b && Owns(s.threads[a]) && Owns(s.threads[b]) ==>
      s.threads[a].h != s.threads[b].h
  }

  /** Every claimed position still to be printed is stamped or has an owner that will stamp it. */
  ghost predicate NoneOrphaned<T>(s: State<T>)
    requires Positions(s)
  {
    forall p :: Printed(s) <= p < s.head && s.ready[Slot(p)] != p + 1 ==> HasOwner(s, p)
  }

  ghost predicate HasOwner<T>(s: State<T>, p: nat) {
    exists id :: id in s.threads && Owns(s.threads[id]) && s.threads[id].h == p
  }

  ghost predicate DrainerOk<T>(s: State<T>)
    requires Positions(s)
  {
    match s.drainer
    case DTop => true
    case DHead(h) => s.tail <= h <= s.head
    case DBoth(h, t) => t == s.tail && t <= h <= s.head
    case DIdle(h) => h == s.tail
    case DScan(h, t) => t <= h <= s.head
    case DPrint(h, t) => t < h <= s.head && s.ready[Slot(t)] == t + 1
    case DStore(h, t) => t <= h <= s.head
    case DExited(h) => h == s.tail && !s.running
  }

  /** Threads whose call has neither claimed nor been counted as a drop. */
  ghost function Undecided<T>(s: State<T>): set<nat> {
    set id | id in s.threads && !Owns(s.threads[id])
  }

  ghost predicate Accounted<T>(s: State<T>) {
    s.calls == |s.claims| + s.dropped + |Undecided(s)|
  }

  ghost predicate Inv<T>(s: State<T>) {
    && Positions(s)
    && RecentStamps(s)
    && StampsTell(s)
    && CallsOk(s)
    && OwnersDiffer(s)
    && NoneOrphaned(s)
    && DrainerOk(s)
    && Accounted(s)
  }

  // ---- arithmetic

  /** Positions fewer than a ring apart sit in different slots. */
  lemma SlotsApart(i: nat, j: nat)
    requires i < j < i + RING
    ensures Slot(i) != Slot(j)
  {
    if i % RING == j % RING {
      assert j - i == (j / RING - i / RING) * RING;
      MultipleFarFromZero(j / RING - i / RING, RING);
    }
  }

  /** Of the two stamps a slot may hold, only the right one reads as the right word. */
  lemma StampWord(stamp: nat, p: nat)
    requires StampOf(stamp, p)
    ensures Word(stamp) == Word(p + 1) <==> stamp == p + 1
  {
    if stamp != p + 1 { WordsApart(stamp, p + 1); }
  }

  /** Counts fewer than 2^64 apart are distinct words. */
  lemma WordsApart(i: nat, j: nat)
    requires i < j < i + TWO64
    ensures Word(i) != Word(j)
  {
    if i % TWO64 == j % TWO64 {
      assert j - i == (j / TWO64 - i / TWO64) * TWO64;
      MultipleFarFromZero(j / TWO64 - i / TWO64, TWO64);
    }
  }

  lemma BehindExact(h: nat, t: nat)
    requires t <= h <= t + RING
    ensures Behind(h, t) == h - t
  {
    ModUnique(h - t, TWO64, 0, h - t);
  }

  // ---- every step keeps the invariant

  lemma {:induction false} InitOk<T>()
    ensures Inv(Init<T>())
  {
    assert Undecided(Init<T>()) == {};
  }

  lemma {:induction false} UndecidedMoves<T>(s: State<T>, r: State<T>, id: nat)
    requires forall x :: x != id ==> (x in s.threads <==> x in r.threads)
    requires forall x :: x != id && x in s.threads ==> r.threads[x] == s.threads[x]
    ensures |Undecided(r)| ==
      |Undecided(s)| - (if id in Undecided(s) then 1 else 0) + (if id in Undecided(r) then 1 else 0)
  {
    hide Owns;
    forall x | x != id ensures x in Undecided(s) <==> x in Undecided(r) {}
    SameBut(Undecided(s), Undecided(r), id);
  }

  lemma SameBut(a: set<nat>, b: set<nat>, id: nat)
    requires forall x :: x != id ==> (x in a <==> x in b)
    ensures |b| == |a| - (if id in a then 1 else 0) + (if id in b then 1 else 0)
  {
    SizeWithout(a, id);
    SizeWithout(b, id);
    assert a - {id} == b - {id};
  }

  lemma SizeWithout(a: set<nat>, id: nat)
    ensures |a - {id}| == |a| - if id in a then 1 else 0
  {
    if id !in a { assert a - {id} == a; }
  }

  /** A step that only moves a thread between undecided points keeps everything else. */
  lemma {:induction false} UndecidedStep<T>(s: State<T>, id: nat, c: Call<T>)
    requires Inv(s) && !Owns(c) && CallOk(s, c)
    requires id in s.threads ==> !Owns(s.threads[id])
    ensures var r := s.(threads := s.threads[id := c], calls := if id in s.threads then s.calls else s.calls + 1);
      Inv(r)
  {
    var r := s.(threads := s.threads[id := c], calls := if id in s.threads then s.calls else s.calls + 1);
    UndecidedMoves(s, r, id);
    OwnersKept(s, r, id);
    hide Slot, HasOwner;
  }

  lemma {:induction false} OwnersKept<T>(s: State<T>, r: State<T>, id: nat)
    requires Positions(s) && Positions(r) && NoneOrphaned(s)
    requires r.ready == s.ready && r.head == s.head && Printed(r) == Printed(s)
    requires forall x :: x in s.threads && Owns(s.threads[x]) ==>
      x in r.threads && Owns(r.threads[x]) && r.threads[x].h == s.threads[x].h
    ensures NoneOrphaned(r)
  {
    forall p | Printed(r) <= p < r.head && r.ready[Slot(p)] != p + 1 ensures HasOwner(r, p) {
      assert HasOwner(s, p);
      var x :| x in s.threads && Owns(s.threads[x]) && s.threads[x].h == p;
      assert x in r.threads && Owns(r.threads[x]) && r.threads[x].h == p;
    }
  }

  lemma {:induction false} LogKeeps<T>(s: State<T>, id: nat, rec: T)
    requires Inv(s)
    ensures Inv(Step(s, Log(id, rec)))
  {
    var r := Step(s, Log(id, rec));
    assert id !in s.threads ==> r == s.(threads := s.threads[id := Loaded(rec, s.head)], calls := s.calls + 1);
    if id !in s.threads { UndecidedStep(s, id, Loaded(rec, s.head)); }
    hide *;
  }

  lemma {:induction false} LoadedKeeps<T>(s: State<T>, id: nat, spurious: bool)
    requires Inv(s) && id in s.threads && s.threads[id].Loaded?
    ensures Inv(CallStep(s, id, spurious))
  {
    var r, h := s.threads[id].r, s.threads[id].h;
    if h >= s.tail { BehindExact(h, s.tail); }
    UndecidedStep(s, id, if Behind(h, s.tail) >= RING then Dropping(r) else Checked(r, h));
  }

  lemma {:induction false} CheckedKeeps<T>(s: State<T>, id: nat, spurious: bool)
    requires Inv(s) && id in s.threads && s.threads[id].Checked?
    requires s.head - s.threads[id].h < TWO64
    ensures Inv(CallStep(s, id, spurious))
  {
    var c := s.threads[id];
    assert CallOk(s, c);
    if c.h < s.head { WordsApart(c.h, s.head); }
    if s.head == c.h && !spurious { ClaimKeeps(s, id, c.r); } else { UndecidedStep(s, id, Loaded(c.r, s.head)); }
  }

  /** The state after thread id claims position head for record rec. */
  ghost function AfterClaim<T>(s: State<T>, id: nat, rec: T): State<T> {
    s.(head := s.head + 1, claims := s.claims + [rec], threads := s.threads[id := Claimed(rec, s.head)])
  }

  /** A compare-and-swap that succeeds keeps the invariant exactly when the ring has room at that moment. */
  lemma {:induction false} CasKeepsIffRoom<T>(s: State<T>, id: nat)
    requires Inv(s) && id in s.threads && s.threads[id].Checked? && Word(s.head) == Word(s.threads[id].h)
    ensures Inv(CallStep(s, id, false)) <==> s.head - s.tail < RING
  {
    var r := CallStep(s, id, false);
    assert r == AfterClaim(s, id, s.threads[id].r);
    if s.head - s.tail < RING {
      ClaimKeeps(s, id, s.threads[id].r);
    } else {
      assert !Positions(r);
    }
  }

  /** A successful CAS takes a position whose slot is free and whose stamp is old. */
  lemma {:induction false} ClaimKeeps<T>(s: State<T>, id: nat, rec: T)
    requires Inv(s) && s.head - s.tail < RING
    requires id in s.threads && !Owns(s.threads[id])
    ensures Inv(AfterClaim(s, id, rec))
  {
    var r := AfterClaim(s, id, rec);
    UndecidedMoves(s, r, id);
    ClaimPositions(s, id, rec);
    ClaimedHasOwner(s, id, rec);
  }

  lemma {:induction false} ClaimPositions<T>(s: State<T>, id: nat, rec: T)
    requires Inv(s) && s.head - s.tail < RING
    requires id in s.threads && !Owns(s.threads[id])
    ensures var r := AfterClaim(s, id, rec); Positions(r) && StampsTell(r) && CallsOk(r) && OwnersDiffer(r)
  {
    var r := AfterClaim(s, id, rec);
    assert r.claims[..Printed(r)] == s.claims[..Printed(s)];
    forall x | x in r.threads ensures CallOk(r, r.threads[x]) {
      if x != id { assert CallOk(s, s.threads[x]); }
    }
    forall x | x in s.threads && Owns(s.threads[x]) ensures s.threads[x].h < s.head {
      assert CallOk(s, s.threads[x]);
    }
  }

  lemma {:induction false} ClaimedHasOwner<T>(s: State<T>, id: nat, rec: T)
    requires Inv(s) && id in s.threads && !Owns(s.threads[id])
    requires Positions(AfterClaim(s, id, rec))
    ensures NoneOrphaned(AfterClaim(s, id, rec))
  {
    var r := AfterClaim(s, id, rec);
    forall p | Printed(r) <= p < r.head && r.ready[Slot(p)] != p + 1 ensures HasOwner(r, p) {
      if p == s.head {
        assert r.threads[id].h == p;
      } else {
        assert HasOwner(s, p);
        var x :| x in s.threads && Owns(s.threads[x]) && s.threads[x].h == p;
        assert x != id && r.threads[x] == s.threads[x];
      }
    }
  }

  lemma {:induction false} DroppingKeeps<T>(s: State<T>, id: nat, spurious: bool)
    requires Inv(s) && id in s.threads && s.threads[id].Dropping?
    ensures Inv(CallStep(s, id, spurious))
  {
    var r := CallStep(s, id, spurious);
    UndecidedMoves(s, r, id);
    OwnersKept(s, r, id);
  }

  /** An owner writing its slot disturbs no other owner and no stamped record. */
  lemma {:induction false} WriteKeeps<T>(s: State<T>, id: nat, spurious: bool)
    requires Inv(s) && id in s.threads && (s.threads[id].Claimed? || s.threads[id].Writing?)
    ensures Inv(CallStep(s, id, spurious))
  {
    var c := s.threads[id];
    if c.Claimed? {
      SlotWriteKeeps(s, id, Torn, Writing(c.r, c.h));
    } else {
      SlotWriteKeeps(s, id, Whole(c.r), Stamping(c.r, c.h));
    }
  }

  /** The state after owner id puts cell in its slot and moves on to c. */
  ghost function AfterWrite<T>(s: State<T>, id: nat, cell: Cell<T>, c: Call<T>): State<T>
    requires Shape(s) && Owns(c)
  {
    s.(slots := s.slots[Slot(c.h) := cell], threads := s.threads[id := c])
  }

  lemma {:induction false} SlotWriteKeeps<T>(s: State<T>, id: nat, cell: Cell<T>, c: Call<T>)
    requires Inv(s) && id in s.threads && Owns(s.threads[id])
    requires Owns(c) && c.h == s.threads[id].h && c.r == s.threads[id].r
    requires (c.Writing? && cell == Torn) || (c.Stamping? && cell == Whole(c.r))
    ensures Inv(AfterWrite(s, id, cell, c))
  {
    UndecidedMoves(s, AfterWrite(s, id, cell, c), id);
    SlotWriteCalls(s, id, cell, c);
    OwnersKept(s, AfterWrite(s, id, cell, c), id);
  }

  lemma {:induction false} SlotWriteCalls<T>(s: State<T>, id: nat, cell: Cell<T>, c: Call<T>)
    requires Inv(s) && id in s.threads && Owns(s.threads[id])
    requires Owns(c) && c.h == s.threads[id].h && c.r == s.threads[id].r
    requires (c.Writing? && cell == Torn) || (c.Stamping? && cell == Whole(c.r))
    ensures var r := AfterWrite(s, id, cell, c);
      Positions(r) && StampsTell(r) && CallsOk(r) && OwnersDiffer(r) && DrainerOk(r)
  {
    var r := AfterWrite(s, id, cell, c);
    assert CallOk(s, s.threads[id]);
    OthersApart(s, c.h);
    forall x | x in r.threads ensures CallOk(r, r.threads[x]) {
      if x != id { assert CallOk(s, s.threads[x]); }
    }
  }

  /** Positions between the printed count and head use distinct slots. */
  lemma {:induction false} OthersApart<T>(s: State<T>, h: nat)
    requires Positions(s) && Printed(s) <= h < s.head
    ensures forall p: nat :: Printed(s) <= p < s.head && p != h ==> Slot(p) != Slot(h)
  {
    forall p: nat | Printed(s) <= p < s.head && p != h ensures Slot(p) != Slot(h) {
      if p < h { SlotsApart(p, h); } else { SlotsApart(h, p); }
    }
  }

  ghost function AfterStamp<T>(s: State<T>, id: nat, h: nat): State<T>
    requires Shape(s)
  {
    s.(ready := s.ready[Slot(h) := h + 1], threads := s.threads - {id})
  }

  lemma {:induction false} StampKeeps<T>(s: State<T>, id: nat)
    requires Inv(s) && id in s.threads && s.threads[id].Stamping?
    ensures Inv(AfterStamp(s, id, s.threads[id].h))
  {
    UndecidedMoves(s, AfterStamp(s, id, s.threads[id].h), id);
    StampPositions(s, id);
    StampIsRecent(s, id);
    StampedHaveOwners(s, id);
    hide Positions, RecentStamps, StampsTell, CallsOk, OwnersDiffer, NoneOrphaned, DrainerOk;
  }

  lemma {:induction false} StampIsRecent<T>(s: State<T>, id: nat)
    requires Inv(s) && id in s.threads && s.threads[id].Stamping?
    ensures RecentStamps(AfterStamp(s, id, s.threads[id].h))
  {
    var h := s.threads[id].h;
    var r := AfterStamp(s, id, h);
    assert CallOk(s, s.threads[id]);
    forall p | Printed(r) <= p < Printed(r) + RING ensures StampOf(r.ready[Slot(p)], p) {
      assert StampOf(s.ready[Slot(p)], p);
      if p < h { SlotsApart(p, h); } else if p > h { SlotsApart(h, p); }
    }
  }

  lemma {:induction false} StampPositions<T>(s: State<T>, id: nat)
    requires Inv(s) && id in s.threads && s.threads[id].Stamping?
    ensures var r := AfterStamp(s, id, s.threads[id].h);
      Positions(r) && StampsTell(r) && CallsOk(r) && OwnersDiffer(r) && DrainerOk(r)
  {
    var h := s.threads[id].h;
    var r := AfterStamp(s, id, h);
    assert CallOk(s, s.threads[id]);
    OthersApart(s, h);
    forall x | x in r.threads ensures CallOk(r, r.threads[x]) { assert CallOk(s, s.threads[x]); }
  }

  lemma {:induction false} StampedHaveOwners<T>(s: State<T>, id: nat)
    requires Inv(s) && id in s.threads && s.threads[id].Stamping?
    requires Positions(AfterStamp(s, id, s.threads[id].h))
    ensures NoneOrphaned(AfterStamp(s, id, s.threads[id].h))
  {
    var r := AfterStamp(s, id, s.threads[id].h);
    assert CallOk(s, s.threads[id]);
    OthersApart(s, s.threads[id].h);
    forall p | Printed(r) <= p < r.head && r.ready[Slot(p)] != p + 1 ensures HasOwner(r, p) {
      assert HasOwner(s, p);
      var x :| x in s.threads && Owns(s.threads[x]) && s.threads[x].h == p;
      assert x != id && x in r.threads && r.threads[x] == s.threads[x];
    }
  }

  lemma {:induction false} StampStepKeeps<T>(s: State<T>, id: nat, spurious: bool)
    requires Inv(s) && id in s.threads && s.threads[id].Stamping?
    ensures Inv(CallStep(s, id, spurious))
  {
    StampKeeps(s, id);
    assert CallStep(s, id, spurious) == AfterStamp(s, id, s.threads[id].h);
  }

  lemma {:induction false} CallKeeps<T>(s: State<T>, id: nat, spurious: bool)
    requires Inv(s) && id in s.threads && RecentHead(s, Advance(id, spurious))
    ensures Inv(CallStep(s, id, spurious))
  {
    match s.threads[id]
    case Loaded(_, _) => LoadedKeeps(s, id, spurious);
    case Checked(_, _) => CheckedKeeps(s, id, spurious);
    case Dropping(_) => DroppingKeeps(s, id, spurious);
    case Claimed(_, _) => WriteKeeps(s, id, spurious);
    case Writing(_, _) => WriteKeeps(s, id, spurious);
    case Stamping(_, _) => StampStepKeeps(s, id, spurious);
  }

  /** Printing position t moves the lap by one: the slot of t now waits for position t + RING. */
  lemma {:induction false} PrintIsRecent<T>(s: State<T>)
    requires Inv(s) && s.drainer.DPrint?
    ensures RecentStamps(DrainStep(s))
  {
    var r, t := DrainStep(s), s.drainer.t;
    forall p | Printed(r) <= p < Printed(r) + RING ensures StampOf(r.ready[Slot(p)], p) {
      if p == t + RING {
        assert p % RING == t % RING by { ModUnique(p, RING, t / RING + 1, t % RING); }
      } else {
        assert StampOf(s.ready[Slot(p)], p);
      }
    }
  }

  lemma {:induction false} PrintKeeps<T>(s: State<T>)
    requires Inv(s) && s.drainer.DPrint?
    ensures Inv(DrainStep(s))
  {
    var r := DrainStep(s);
    var t := s.drainer.t;
    PrintIsRecent(s);
    hide RecentStamps, StampOf;
    assert s.slots[Slot(t)] == Whole(s.claims[t]);
    assert r.output == r.claims[..t + 1];
    assert Undecided(r) == Undecided(s);
    forall x | x in r.threads ensures CallOk(r, r.threads[x]) { assert CallOk(s, s.threads[x]); }
    forall p | Printed(r) <= p < r.head && r.ready[Slot(p)] != p + 1 ensures HasOwner(r, p) { assert HasOwner(s, p); }
  }

  /** A drainer step that touches only its own locals, and tail. */
  lemma {:induction false} QuietDrainKeeps<T>(s: State<T>, tail: nat, d: Drainer)
    requires Inv(s)
    requires s.tail <= tail && Printed(s.(tail := tail, drainer := d)) == Printed(s) >= tail
    requires DrainerOk(s.(tail := tail, drainer := d))
    ensures Inv(s.(tail := tail, drainer := d))
  {
    var r := s.(tail := tail, drainer := d);
    assert Undecided(r) == Undecided(s);
    assert Positions(r);
    forall x | x in r.threads ensures CallOk(r, r.threads[x]) { assert CallOk(s, s.threads[x]); }
    OwnersKept(s, r, 0);
  }

  lemma {:induction false} QuietDrainStep<T>(s: State<T>)
    requires Positions(s) && RecentStamps(s) && DrainerOk(s) && !s.drainer.DPrint?
    ensures var r := DrainStep(s);
      && r == s.(tail := r.tail, drainer := r.drainer)
      && s.tail <= r.tail <= Printed(s) == Printed(r)
      && DrainerOk(r)
  {
    match s.drainer
    case DBoth(h, t) => if t < h { WordsApart(t, h); }
    case DScan(h, t) => StampWord(s.ready[Slot(t)], t); hide Slot, RecentStamps;
    case _ => hide RecentStamps;
  }

  lemma {:induction false} DrainKeeps<T>(s: State<T>)
    requires Inv(s)
    ensures Inv(DrainStep(s))
  {
    if s.drainer.DPrint? {
      PrintKeeps(s);
    } else {
      QuietDrainStep(s);
      QuietDrainKeeps(s, DrainStep(s).tail, DrainStep(s).drainer);
    }
  }

  lemma {:induction false} StepKeeps<T>(s: State<T>, a: Action<T>)
    requires Inv(s) && RecentHead(s, a)
    ensures Inv(Step(s, a))
  {
    match a
    case Log(id, r) => LogKeeps(s, id, r);
    case Advance(id, spurious) => if id in s.threads { CallKeeps(s, id, spurious); }
    case Drain => DrainKeeps(s);
    case Stop => StopKeeps(s);
  }

  lemma {:induction false} StopKeeps<T>(s: State<T>)
    requires Inv(s)
    ensures Inv(s.(running := false))
  {
    var r := s.(running := false);
    assert Undecided(r) == Undecided(s);
    forall x | x in r.threads ensures CallOk(r, r.threads[x]) { assert CallOk(s, s.threads[x]); }
    OwnersKept(s, r, 0);
  }

  lemma {:induction false} RunKeeps<T>(acts: seq<Action<T>>)
    requires Timely(acts)
    ensures Inv(Run(acts))
  {
    if acts == [] {
      InitOk<T>();
    } else {
      RunKeeps(acts[..|acts| - 1]);
      StepKeeps(Run(acts[..|acts| - 1]), acts[|acts| - 1]);
    }
  }

  /** Fewer than 2^64 records in all are enough for every compare-and-swap to be timely. */
  lemma {:induction false} FewClaimsAreTimely<T>(acts: seq<Action<T>>)
    requires |Run(acts).claims| < TWO64
    ensures Timely(acts)
  {
    if acts != [] {
      var before, a := acts[..|acts| - 1], acts[|acts| - 1];
      ClaimsGrow(Run(before), a);
      FewClaimsAreTimely(before);
      RunKeeps(before);
    }
  }

  lemma ClaimsGrow<T>(s: State<T>, a: Action<T>)
    requires Shape(s)
    ensures |s.claims| <= |Step(s, a).claims|
  {
  }

  // ---- what every interleaving guarantees

  /** A thread may be writing a slot from the moment it owns the position until it stamps it. */
  ghost predicate OwnSlotsApart<T>(s: State<T>) {
    forall a, b :: a in s.threads && b in s.threads && a != b && Owns(s.threads[a]) && Owns(s.threads[b]) ==>
      Slot(s.threads[a].h) != Slot(s.threads[b].h)
  }

  ghost predicate PrintsAlone<T>(s: State<T>) {
    s.drainer.DPrint? ==>
      forall a :: a in s.threads && Owns(s.threads[a]) ==> Slot(s.threads[a].h) != Slot(s.drainer.t)
  }

  /**
   In every interleaving: no two threads own the same slot, the slot being printed is
   owned by nobody and holds the record of that very position, the output is the
   records in claim order with none lost, doubled or torn, and every call made so far
   has claimed one position, been counted as one drop, or is still undecided.
   */
  lemma {:induction false} LoggerIsSafe<T>(acts: seq<Action<T>>)
    requires Timely(acts)
    ensures var s := Run(acts);
      && OwnSlotsApart(s)
      && PrintsAlone(s)
      && (s.drainer.DPrint? ==> s.drainer.t < |s.claims| && s.slots[Slot(s.drainer.t)] == Whole(s.claims[s.drainer.t]))
      && s.output <= s.claims
      && !s.tornRead
      && s.calls == |s.claims| + s.dropped + |Undecided(s)|
  {
    RunKeeps(acts);
    var s := Run(acts);
    forall a | a in s.threads && Owns(s.threads[a])
      ensures forall p: nat :: Printed(s) <= p < s.head && p != s.threads[a].h ==> Slot(p) != Slot(s.threads[a].h)
    {
      assert CallOk(s, s.threads[a]);
      OthersApart(s, s.threads[a].h);
    }
    forall a, b | a in s.threads && b in s.threads && a != b && Owns(s.threads[a]) && Owns(s.threads[b])
      ensures Slot(s.threads[a].h) != Slot(s.threads[b].h)
    {
      assert CallOk(s, s.threads[a]) && CallOk(s, s.threads[b]);
    }
    if s.drainer.DPrint? {
      forall a | a in s.threads && Owns(s.threads[a]) ensures Slot(s.threads[a].h) != Slot(s.drainer.t) {
        assert CallOk(s, s.threads[a]);
      }
    }
  }

  /**
   When the drainer exits, stop() was called and exactly the positions claimed before
   its last load of head have been printed: h is the value that load returned.
   */
  lemma {:induction false} ExitPrintsAllSeen<T>(acts: seq<Action<T>>)
    requires Timely(acts) && Run(acts).drainer.DExited?
    ensures var s := Run(acts);
      !s.running && s.drainer.h <= |s.claims| && s.output == s.claims[..s.drainer.h]
  {
    RunKeeps(acts);
  }

  /**
   The drainer at a position it has still to print: it prints exactly when the record is
   stamped and no multiple of 2^64 lies between that position and the head it loaded.
   An unstamped record always has an owner still on its way to stamp it.
   */
  lemma {:induction false} DrainerPrintsIff<T>(acts: seq<Action<T>>)
    requires Timely(acts) && Run(acts).drainer.DScan? && Run(acts).drainer.t < Run(acts).drainer.h
    ensures var s := Run(acts);
      var h, t := s.drainer.h, s.drainer.t;
      && (DrainStep(s).drainer.DPrint? <==> s.ready[Slot(t)] == t + 1 && t / TWO64 == h / TWO64)
      && (s.ready[Slot(t)] != t + 1 ==> HasOwner(s, t))
  {
    RunKeeps(acts);
    ScanPrintsIff(Run(acts));
    WaitsForOwner(Run(acts));
    hide Inv;
  }

  lemma {:induction false} ScanPrintsIff<T>(s: State<T>)
    requires Inv(s) && s.drainer.DScan? && s.drainer.t < s.drainer.h
    ensures var h, t := s.drainer.h, s.drainer.t;
      DrainStep(s).drainer.DPrint? <==> s.ready[Slot(t)] == t + 1 && t / TWO64 == h / TWO64
  {
    StampWord(s.ready[Slot(s.drainer.t)], s.drainer.t);
    LaterWord(s.drainer.t, s.drainer.h);
    hide StampsTell, CallsOk, OwnersDiffer, NoneOrphaned, Accounted, Slot;
  }

  lemma {:induction false} WaitsForOwner<T>(s: State<T>)
    requires Inv(s) && s.drainer.DScan? && s.drainer.t < s.drainer.h
    ensures s.ready[Slot(s.drainer.t)] != s.drainer.t + 1 ==> HasOwner(s, s.drainer.t)
  {
    hide StampsTell, CallsOk, OwnersDiffer, RecentStamps, Accounted, Slot, HasOwner;
  }

  /** Of two counts fewer than 2^64 apart the later reads as the greater word exactly within one turn of the counter. */
  lemma LaterWord(t: nat, h: nat)
    requires t < h < t + TWO64
    ensures Word(t) < Word(h) <==> t / TWO64 == h / TWO64
  {
    var q, p := t / TWO64, h / TWO64;
    assert t == q * TWO64 + Word(t) && h == p * TWO64 + Word(h);
    if q < p { assert (p - q) * TWO64 >= TWO64; }
  }

  /**
   A call decides to drop exactly when the ring is full at its load of tail, or the head it
   read lies behind tail by a distance that is, modulo 2^64, neither zero nor above
   2^64 - 4096: a drop does not mean the ring is full.
   */
  lemma {:induction false} DropsWhenFullOrStale<T>(s: State<T>, id: nat)
    requires Inv(s) && id in s.threads && s.threads[id].Loaded?
    ensures var h, t := s.threads[id].h, s.tail;
      CallStep(s, id, false).threads[id].Dropping? <==>
        if h >= t then s.head == t + RING == h else 0 < (t - h) % TWO64 <= TWO64 - RING
  {
    var h, t := s.threads[id].h, s.tail;
    assert CallOk(s, s.threads[id]);
    if h >= t { BehindExact(h, t); } else { BehindStale(h, t); }
  }

  lemma BehindStale(h: nat, t: nat)
    requires h < t
    ensures Behind(h, t) == if (t - h) % TWO64 == 0 then 0 else TWO64 - (t - h) % TWO64
  {
    var q, d := (t - h) / TWO64, (t - h) % TWO64;
    assert t - h == q * TWO64 + d;
    if d == 0 { ModUnique(h - t, TWO64, -q, 0); } else { ModUnique(h - t, TWO64, -q - 1, TWO64 - d); }
  }
}
