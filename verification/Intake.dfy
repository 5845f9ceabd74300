/**
 The network side of `Runtime`: how a decoded message becomes market events, and how those
 are offered to the event queue. Whether a try_push finds room is up to the other thread,
 so it is an arbitrary answer per try: `room(k)` for the k-th try of one message.
 */
module Intake {
  import opened Types
  import opened BookSpec
  import opened Feed
  import opened Pipeline
  import Threads

  const SNAPSHOT_RETRIES: nat := 200

  /** `CoinbaseLevel` and `CoinbaseMessage`; Other is every type that carries no market data. */
  datatype Quote = Quote(px: real, qty: real)
  datatype Message =
    | SnapshotMsg(bids: seq<Quote>, asks: seq<Quote>)
    | L2Msg(changes: seq<Change>)
    | HeartbeatMsg
    | OtherMsg

  /** The first 64 levels of a side, on the tick grid. */
  function Listing(qs: seq<Quote>, tick: real): (ls: seq<PriceLevel>)
    requires tick > 0.0
    ensures |ls| == Smaller(|qs|, SNAP_LEVELS)
  {
    seq(Smaller(|qs|, SNAP_LEVELS), i requires 0 <= i < |qs| => PriceLevel(FromDouble(qs[i].px, tick), qs[i].qty))
  }

  /** Element i of a listing: the quote's own quantity, at the tick its price is nearest to. */
  lemma ListingSays(qs: seq<Quote>, tick: real, i: nat)
    requires tick > 0.0 && i < |qs| && i < 64
    ensures i < |Listing(qs, tick)| && Listing(qs, tick)[i].qty == qs[i].qty
    ensures -tick <= 2.0 * (Listing(qs, tick)[i].ticks as real * tick - qs[i].px) <= tick
  {
    FromDoubleNearest(qs[i].px, tick);
  }

  function Updates(chunks: seq<seq<Change>>): (evs: seq<Event>)
    ensures |evs| == |chunks|
  {
    seq(|chunks|, i requires 0 <= i < |chunks| => L2Update(chunks[i]))
  }

  /** The events of a message, in the order they are offered. */
  function EventsFor(m: Message, tick: real): seq<Event>
    requires tick > 0.0
  {
    match m
    case SnapshotMsg(bids, asks) => [Snapshot(Listing(bids, tick), Listing(asks, tick))]
    case L2Msg(cs) => Updates(Chunks(cs))
    case HeartbeatMsg => [Heartbeat]
    case OtherMsg => []
  }

  /** What one message put into the queue, what it had to drop, and how often it tried. */
  datatype Sent = Sent(pushed: seq<Event>, drops: nat, tries: nat)

  /** One event tried up to 1 + retries times. */
  function Offer(s: Sent, ev: Event, retries: nat, room: nat -> bool): Sent
    decreases retries
  {
    var s1 := s.(tries := s.tries + 1);
    if room(s.tries) then s1.(pushed := s.pushed + [ev])
    else if retries == 0 then s1.(drops := s.drops + 1)
    else Offer(s1, ev, retries - 1, room)
  }

  /** Only a snapshot is retried: losing one leaves the book unsynced. */
  function Retries(ev: Event): nat {
    if ev.Snapshot? then SNAPSHOT_RETRIES else 0
  }

  function OfferAll(evs: seq<Event>, room: nat -> bool): Sent {
    if evs == [] then Sent([], 0, 0)
    else
      var last := evs[|evs| - 1];
      Offer(OfferAll(evs[..|evs| - 1], room), last, Retries(last), room)
  }

  /** One try: sent, given up, or left to the tries after it. */
  lemma OfferTry(s: Sent, ev: Event, retries: nat, room: nat -> bool)
    ensures Offer(s, ev, retries, room) ==
      if room(s.tries) then Sent(s.pushed + [ev], s.drops, s.tries + 1)
      else if retries == 0 then Sent(s.pushed, s.drops + 1, s.tries + 1)
      else Offer(Sent(s.pushed, s.drops, s.tries + 1), ev, retries - 1, room)
  {
  }

  /** Offering adds to what was sent before, whatever that was. */
  lemma {:induction false} OfferFrom(s: Sent, ev: Event, retries: nat, room: nat -> bool)
    ensures var r, x := Offer(s, ev, retries, room), Offer(Sent([], 0, s.tries), ev, retries, room);
      r == Sent(s.pushed + x.pushed, s.drops + x.drops, x.tries)
    decreases retries
  {
    if !room(s.tries) && retries > 0 {
      OfferFrom(s.(tries := s.tries + 1), ev, retries - 1, room);
    }
  }

  lemma OfferAllLast(evs: seq<Event>, ev: Event, room: nat -> bool)
    requires evs != [] && ev == evs[|evs| - 1]
    ensures var s := OfferAll(evs[..|evs| - 1], room);
      var x := Offer(Sent([], 0, s.tries), ev, Retries(ev), room);
      OfferAll(evs, room) == Sent(s.pushed + x.pushed, s.drops + x.drops, x.tries)
  {
    OfferFrom(OfferAll(evs[..|evs| - 1], room), ev, Retries(ev), room);
  }

  lemma OfferNone(evs: seq<Event>, room: nat -> bool)
    ensures OfferAll(evs[..0], room) == Sent([], 0, 0)
  {
  }

  /** An event that is not a snapshot is offered once. */
  lemma OfferNext(evs: seq<Event>, k: nat, room: nat -> bool)
    requires k < |evs| && !evs[k].Snapshot?
    ensures var s, r := OfferAll(evs[..k], room), OfferAll(evs[..k + 1], room);
      r == if room(s.tries) then Sent(s.pushed + [evs[k]], s.drops, s.tries + 1)
           else Sent(s.pushed, s.drops + 1, s.tries + 1)
  {
    assert evs[..k + 1][..k] == evs[..k];
  }

  // ---- what is sent

  /** a is what is left of b after leaving out some elements. */
  predicate LeftOf(a: seq<Event>, b: seq<Event>) {
    if b == [] then a == []
    else
      || (a != [] && a[|a| - 1] == b[|b| - 1] && LeftOf(a[..|a| - 1], b[..|b| - 1]))
      || LeftOf(a, b[..|b| - 1])
  }

  lemma {:induction false} OfferSends(s: Sent, ev: Event, retries: nat, room: nat -> bool)
    ensures var r := Offer(s, ev, retries, room);
      && (r == Sent(s.pushed + [ev], s.drops, r.tries) || r == Sent(s.pushed, s.drops + 1, r.tries))
      && (r.drops == s.drops + 1 <==> forall k :: s.tries <= k <= s.tries + retries ==> !room(k))
    decreases retries
  {
    if !room(s.tries) && retries > 0 {
      OfferSends(s.(tries := s.tries + 1), ev, retries - 1, room);
    }
  }

  lemma {:induction false} LeftOfStep(a: seq<Event>, b: seq<Event>, ev: Event)
    requires LeftOf(a, b)
    ensures LeftOf(a, b + [ev]) && LeftOf(a + [ev], b + [ev])
  {
    assert (a + [ev])[..|a|] == a && (b + [ev])[..|b|] == b;
  }

  /** Of the events offered, what was sent and how many were not. */
  predicate Tally(s: Sent, evs: seq<Event>) {
    |s.pushed| + s.drops == |evs| && LeftOf(s.pushed, evs) && (s.drops == 0 <==> s.pushed == evs)
  }

  lemma {:induction false} TallyStep(s: Sent, evs: seq<Event>, ev: Event, retries: nat, room: nat -> bool)
    requires Tally(s, evs)
    ensures Tally(Offer(s, ev, retries, room), evs + [ev])
  {
    OfferSends(s, ev, retries, room);
    LeftOfStep(s.pushed, evs, ev);
    hide Offer, LeftOf;
    assert |s.pushed| < |evs + [ev]|;
  }

  /** Every event of a message is pushed, in order, or counted as one drop. */
  lemma {:induction false} SentOrCounted(evs: seq<Event>, room: nat -> bool)
    ensures Tally(OfferAll(evs, room), evs)
  {
    if evs != [] {
      var before, last := evs[..|evs| - 1], evs[|evs| - 1];
      SentOrCounted(before, room);
      TallyStep(OfferAll(before, room), before, last, Retries(last), room);
      assert before + [last] == evs;
      hide Tally, Offer;
    }
  }

  /** A snapshot message is lost exactly when the queue refuses it 201 times in a row. */
  lemma SnapshotLostIff(bids: seq<Quote>, asks: seq<Quote>, tick: real, room: nat -> bool)
    requires tick > 0.0
    ensures OfferAll(EventsFor(SnapshotMsg(bids, asks), tick), room).pushed == [] <==>
      forall k :: 0 <= k <= 200 ==> !room(k)
  {
    var evs := EventsFor(SnapshotMsg(bids, asks), tick);
    assert evs[..0] == [];
    OfferSends(Sent([], 0, 0), evs[0], SNAPSHOT_RETRIES, room);
    SentOrCounted(evs, room);
  }

  // ---- from the message to the book

  /** The events of the queue's items from position p on are these. */
  predicate PushedAt(s: Threads.State, p: nat, evs: seq<Event>) {
    p + |evs| <= |s.pushed| && forall k :: 0 <= k < |evs| ==> s.pushed[p + k].ev == evs[k]
  }

  /** Position p is reached on a synced book, and no reconnect is observed through the n turns from there. */
  predicate SyncedThrough(s: Threads.State, p: nat, n: nat) {
    && 0 < p && p + n <= |s.turns|
    && (forall k :: p <= k < p + n ==> s.turns[k].observed == s.turns[p - 1].observed)
    && Threads.SnapshotSeen(s, p, s.turns[p - 1].observed)
  }

  /**
   In every interleaving, an l2update of any length: when no push of it is refused and no
   reconnect is observed from a snapshot before it to its last event, the book after its
   events is what the whole message makes of the book before them.
   */
  lemma {:induction false} WholeMessage(
    c: Config, acts: seq<Threads.Action>, p: nat, cs: seq<Change>, room: nat -> bool)
    requires var s := Threads.Run(acts);
      && RunOk(c, s.inputs) && |s.turns| <= |s.pushed|
      && OfferAll(EventsFor(L2Msg(cs), c.tick), room).drops == 0
      && PushedAt(s, p, OfferAll(EventsFor(L2Msg(cs), c.tick), room).pushed)
      && SyncedThrough(s, p, ChunkCount(|cs|))
    ensures var ins := Threads.Run(acts).inputs;
      var before, after := Threads.Upto(ins, p), Threads.Upto(ins, p + ChunkCount(|cs|));
      RunOk(c, before) && RunOk(c, after) && TookMessage(Run(c, before).book, Run(c, after).book, cs, c.tick)
  {
    hide Run, Inv, Threads.Run, Threads.Upto, Threads.SnapshotSeen, OfferAll, EventsFor, Chunks, Concat, ApplyChanges;
    MessageCarried(Threads.Run(acts), p, cs, c.tick, room);
    ConcatChunks(cs);
    Threads.CarriedMessage(c, acts, p, Chunks(cs));
    BookOk(c, Threads.Upto(Threads.Run(acts).inputs, p));
    TakesMessage(Run(c, Threads.Upto(Threads.Run(acts).inputs, p)).book, cs, c.tick);
    hide TookMessage;
  }

  lemma {:induction false} BookOk(c: Config, ins: seq<Input>)
    requires RunOk(c, ins)
    ensures Wf(Run(c, ins).book) && c.tick > 0.0
  {
    assert Inv(c, Run(c, ins));
  }

  lemma {:induction false} MessageCarried(s: Threads.State, p: nat, cs: seq<Change>, tick: real, room: nat -> bool)
    requires tick > 0.0 && |s.turns| <= |s.pushed|
    requires OfferAll(EventsFor(L2Msg(cs), tick), room).drops == 0
    requires PushedAt(s, p, OfferAll(EventsFor(L2Msg(cs), tick), room).pushed) && SyncedThrough(s, p, ChunkCount(|cs|))
    ensures Threads.Carries(s, p, Chunks(cs))
  {
    var chunks := Chunks(cs);
    SentOrCounted(EventsFor(L2Msg(cs), tick), room);
    assert OfferAll(EventsFor(L2Msg(cs), tick), room).pushed == Updates(chunks);
    hide OfferAll, Tally, LeftOf, Chunks, ChunkCount, EventsFor, Threads.SnapshotSeen;
    forall k | 0 <= k < |chunks| ensures s.pushed[p + k].ev == L2Update(chunks[k]) {
      assert s.pushed[p + k].ev == Updates(chunks)[k];
    }
  }

  /** Best first, uncrossed, and no wider than 3*Capacity/4 - 2 ticks. */
  predicate WellListed(cap: nat, bids: seq<PriceLevel>, asks: seq<PriceLevel>) {
    && Listed(Bid, bids) && Listed(Ask, asks) && bids != [] && asks != []
    && bids[0].ticks < asks[0].ticks && asks[0].ticks - bids[0].ticks <= 3 * cap / 4 - 2
  }

  /** The book is ready, centred on the mid, and shows exactly the listed levels its window covers. */
  predicate ShowsSnapshot(e: Engine, bids: seq<PriceLevel>, asks: seq<PriceLevel>)
    requires Wf(e.book) && bids != [] && asks != []
  {
    && e.ready && e.book.ref == Mid(bids[0].ticks, asks[0].ticks)
    && Levels(e.book, Bid) == Restrict(ListedMap(bids), e.book)
    && Levels(e.book, Ask) == Restrict(ListedMap(asks), e.book)
  }

  lemma {:induction false} SnapshotEvent(c: Config, ins: seq<Input>, bids: seq<PriceLevel>, asks: seq<PriceLevel>)
    requires RunOk(c, ins) && WellListed(c.cap, bids, asks)
    requires ins != [] && ins[|ins| - 1].Process? && ins[|ins| - 1].ev == Snapshot(bids, asks)
    ensures ShowsSnapshot(Run(c, ins), bids, asks)
  {
    hide Run, ApplySnapshot, Levels, Restrict, ListedMap, Listed;
    SnapshotStored(c, ins, bids, asks);
    CapStays(c, ins[..|ins| - 1]);
    RebuiltShows(Run(c, ins[..|ins| - 1]).book, Run(c, ins), bids, asks);
  }

  lemma {:induction false} SnapshotStored(c: Config, ins: seq<Input>, bids: seq<PriceLevel>, asks: seq<PriceLevel>)
    requires RunOk(c, ins)
    requires ins != [] && ins[|ins| - 1].Process? && ins[|ins| - 1].ev == Snapshot(bids, asks)
    ensures Run(c, ins).ready && Run(c, ins).book == ApplySnapshot(Run(c, ins[..|ins| - 1]).book, bids, asks)
  {
    ReadyIffSynced(c, ins);
    LastBook(c, ins);
    hide Run, Inv, ApplySnapshot;
  }

  lemma RebuiltShows(b: Book, e: Engine, bids: seq<PriceLevel>, asks: seq<PriceLevel>)
    requires Wf(b) && WellListed(b.cap, bids, asks) && e.ready && e.book == ApplySnapshot(b, bids, asks)
    ensures ShowsSnapshot(e, bids, asks)
  {
    SnapshotRebuilds(b, bids, asks);
  }

  /**
   In every interleaving, a snapshot message that is not lost to a full queue: when its event,
   the n-th pushed, has been processed, the book is synced and shows the first 64 levels of
   each side, if those are well listed.
   */
  lemma {:induction false} SnapshotMessage(
    c: Config, acts: seq<Threads.Action>, n: nat, bids: seq<Quote>, asks: seq<Quote>, room: nat -> bool)
    requires var s := Threads.Run(acts);
      && RunOk(c, s.inputs) && n < |s.turns| <= |s.pushed|
      && WellListed(c.cap, Listing(bids, c.tick), Listing(asks, c.tick))
      && OfferAll(EventsFor(SnapshotMsg(bids, asks), c.tick), room).pushed != []
      && PushedAt(s, n, OfferAll(EventsFor(SnapshotMsg(bids, asks), c.tick), room).pushed)
    ensures var u := Threads.Upto(Threads.Run(acts).inputs, n + 1);
      RunOk(c, u) && ShowsSnapshot(Run(c, u), Listing(bids, c.tick), Listing(asks, c.tick))
  {
    var s := Threads.Run(acts);
    var sent := OfferAll(EventsFor(SnapshotMsg(bids, asks), c.tick), room);
    SentOrCounted(EventsFor(SnapshotMsg(bids, asks), c.tick), room);
    assert |sent.pushed| == 1 && sent.pushed == EventsFor(SnapshotMsg(bids, asks), c.tick);
    assert s.pushed[n + 0].ev == sent.pushed[0];
    Threads.HistoryRun(acts);
    assert Threads.TurnOk(s, n);
    Threads.PrefixOk(c, s.inputs, n + 1);
    SnapshotEvent(c, Threads.Upto(s.inputs, n + 1), Listing(bids, c.tick), Listing(asks, c.tick));
    hide *;
  }

  lemma {:induction false} CapStays(c: Config, ins: seq<Input>)
    requires RunOk(c, ins)
    ensures Run(c, ins).book.cap == c.cap
  {
    if ins != [] {
      CapStays(c, ins[..|ins| - 1]);
      if ins[|ins| - 1].Process? { LastBook(c, ins); }
    }
  }

  // ---- the network thread's half of the runtime

  class Network {
    const tick: real
    /** What has been pushed into the event queue, in order. */
    var sent: seq<Event>
    var msgsReceived: nat
    var heartbeatsRecv: nat
    var queueFullDrops: nat

    constructor (tick: real)
      ensures this.tick == tick && sent == [] && msgsReceived == heartbeatsRecv == queueFullDrops == 0
    {
      this.tick := tick;
      sent := [];
      msgsReceived, heartbeatsRecv, queueFullDrops := 0, 0, 0;
    }

    /** onCoinbaseMessage */
    method OnMessage(m: Message, room: nat -> bool) returns (tries: nat)
      requires tick > 0.0
      modifies this
      ensures var s := OfferAll(EventsFor(m, tick), room);
        sent == old(sent) + s.pushed && queueFullDrops == old(queueFullDrops) + s.drops && tries == s.tries
      ensures msgsReceived == old(msgsReceived) + 1
      ensures heartbeatsRecv == old(heartbeatsRecv) + if m.HeartbeatMsg? then 1 else 0
    {
      hide Offer;
      tries := 0;
      var ev := Heartbeat;
      match m {
        case SnapshotMsg(bids, asks) =>
          var bs := CopyListing(bids);
          var xs := CopyListing(asks);
          ev := Snapshot(bs, xs);
        case L2Msg(cs) =>
          ev, tries := OfferChunks(cs, room);
        case HeartbeatMsg =>
          heartbeatsRecv := heartbeatsRecv + 1;
        case OtherMsg =>
          msgsReceived := msgsReceived + 1;
          return;
      }
      msgsReceived := msgsReceived + 1;
      ghost var evs := EventsFor(m, tick);
      assert tries == OfferAll(evs[..|evs| - 1], room).tries;
      OfferAllLast(evs, ev, room);
      hide OfferAll, EventsFor, Retries;
      tries := OfferLast(ev, room, tries);
    }

    /** The copy loop of the snapshot case: a level buffer holds 64. */
    method CopyListing(qs: seq<Quote>) returns (ls: seq<PriceLevel>)
      requires tick > 0.0
      ensures ls == Listing(qs, tick)
    {
      var n := if |qs| < SNAP_LEVELS then |qs| else SNAP_LEVELS;
      ls := [];
      for i := 0 to n
        invariant ls == Listing(qs, tick)[..i]
      {
        ls := ls + [PriceLevel(FromDouble(qs[i].px, tick), qs[i].qty)];
      }
    }

    /** The chunk loop of the l2update case: offers every event but the last, which it returns. */
    method OfferChunks(cs: seq<Change>, room: nat -> bool) returns (ev: Event, tries: nat)
      modifies this`sent, this`queueFullDrops
      ensures var evs := Updates(Chunks(cs));
        var s := OfferAll(evs[..|evs| - 1], room);
        && sent == old(sent) + s.pushed && queueFullDrops == old(queueFullDrops) + s.drops && tries == s.tries
        && ev == evs[|evs| - 1]
    {
      hide OfferAll, Offer;
      var total, off := |cs|, 0;
      tries := 0;
      ghost var evs, k := Updates(Chunks(cs)), 0;
      OfferNone(evs, room);
      while true
        invariant off == CHUNK * k && k < |evs| && k == tries
        invariant sent == old(sent) + OfferAll(evs[..k], room).pushed
        invariant queueFullDrops == old(queueFullDrops) + OfferAll(evs[..k], room).drops
        invariant tries == OfferAll(evs[..k], room).tries
        decreases total - off
      {
        var n := if total - off < CHUNK then total - off else CHUNK;
        ev := L2Update(cs[off..off + n]);
        assert ev == evs[k];
        off := off + n;
        if off >= total { return; }
        OfferNext(evs, k, room);
        if room(tries) { sent := sent + [ev]; } else { queueFullDrops := queueFullDrops + 1; }
        tries := tries + 1;
        k := k + 1;
      }
    }

    /** The push after the switch, repeated for a snapshot until it succeeds or 200 retries have failed. */
    method OfferLast(ev: Event, room: nat -> bool, before: nat) returns (tries: nat)
      modifies this`sent, this`queueFullDrops
      ensures var s := Offer(Sent([], 0, before), ev, Retries(ev), room);
        sent == old(sent) + s.pushed && queueFullDrops == old(queueFullDrops) + s.drops && tries == s.tries
    {
      hide Offer;
      OfferTry(Sent([], 0, before), ev, Retries(ev), room);
      var pushed := room(before);
      tries := before + 1;
      if pushed {
        sent := sent + [ev];
      } else if ev.Snapshot? {
        var i := 0;
        while i < SNAPSHOT_RETRIES && !pushed
          invariant i <= SNAPSHOT_RETRIES && tries == before + 1 + i
          invariant sent == if pushed then old(sent) + [ev] else old(sent)
          invariant Offer(Sent([], 0, before), ev, SNAPSHOT_RETRIES, room) ==
            if pushed then Sent([ev], 0, tries)
            else if i == SNAPSHOT_RETRIES then Sent([], 1, tries)
            else Offer(Sent([], 0, tries), ev, SNAPSHOT_RETRIES - 1 - i, room)
          invariant queueFullDrops == old(queueFullDrops)
        {
          OfferTry(Sent([], 0, tries), ev, SNAPSHOT_RETRIES - 1 - i, room);
          pushed := room(tries);
          if pushed { sent := sent + [ev]; }
          tries := tries + 1;
          i := i + 1;
        }
      }
      if !pushed { queueFullDrops := queueFullDrops + 1; }
    }
  }
}
