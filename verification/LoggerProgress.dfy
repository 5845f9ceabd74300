/**
 What calls of the logger come to: a call of log alone, a call that lost a race, the drainer
 on its way through the ring, and a run that drops a record although the ring is free.
 */
module LoggerProgress {
  import opened Words
  import opened LoggerRing

  // ---- what a call comes to

  /** The same action n times. */
  ghost function Times<T>(s: State<T>, act: Action<T>, n: nat): (r: State<T>)
    requires Shape(s)
    ensures Shape(r)
    decreases n
  {
    if n == 0 then s else Times(Step(s, act), act, n - 1)
  }

  lemma {:induction false} TimesNext<T>(s: State<T>, r: State<T>, act: Action<T>, n: nat)
    requires Shape(s) && n > 0 && r == Step(s, act)
    ensures Times(s, act, n) == Times(r, act, n - 1)
  {
  }

  lemma TimesTwo<T>(s: State<T>, act: Action<T>)
    requires Shape(s)
    ensures Times(s, act, 2) == Step(Step(s, act), act)
  {
    assert Times(Step(Step(s, act), act), act, 0) == Step(Step(s, act), act);
  }

  lemma TimesThree<T>(s: State<T>, act: Action<T>)
    requires Shape(s)
    ensures Times(s, act, 3) == Step(Step(Step(s, act), act), act)
  {
    TimesTwo(Step(s, act), act);
  }

  /** A thread at the head of the ring, alone: with room it claims the next position for its record, else it drops it. */
  lemma {:induction false} AtHeadDecides<T>(s: State<T>, id: nat)
    requires Inv(s) && id in s.threads && s.threads[id].Loaded? && s.threads[id].h == s.head
    ensures var rec, r := s.threads[id].r, Times(s, Advance(id, false), 2);
      if s.head - s.tail < RING then
        && r == AfterClaim(s, id, rec).(threads := r.threads)
        && r.threads == s.threads[id := Claimed(rec, s.head)]
      else r == s.(dropped := s.dropped + 1, threads := s.threads - {id})
  {
    var act: Action<T> := Advance(id, false);
    BehindExact(s.head, s.tail);
    TimesTwo(s, act);
    var r1 := Step(s, act);
    if s.head - s.tail < RING {
      assert r1 == s.(threads := s.threads[id := Checked(s.threads[id].r, s.head)]);
      assert r1.threads[id := Claimed(s.threads[id].r, s.head)] == s.threads[id := Claimed(s.threads[id].r, s.head)];
    } else {
      assert r1 == s.(threads := s.threads[id := Dropping(s.threads[id].r)]);
      assert r1.threads - {id} == s.threads - {id};
    }
    hide Times, Inv;
  }

  /** An owner, alone: three steps put its whole record in its slot under its stamp, and its call is over. */
  lemma {:induction false} OwnerFinishes<T>(s: State<T>, id: nat)
    requires Shape(s) && id in s.threads && s.threads[id].Claimed?
    ensures var c, r := s.threads[id], Times(s, Advance(id, false), 3);
      && r.slots == s.slots[Slot(c.h) := Whole(c.r)] && r.ready == s.ready[Slot(c.h) := c.h + 1]
      && id !in r.threads && r.claims == s.claims && r.dropped == s.dropped
  {
    TimesThree(s, Advance(id, false));
    var c := s.threads[id];
    assert s.slots[Slot(c.h) := Torn][Slot(c.h) := Whole(c.r)] == s.slots[Slot(c.h) := Whole(c.r)];
  }

  /**
   A whole call of log alone: with room its record is claimed at the head, written whole and
   stamped; on a full ring it is counted as one drop and nothing is claimed.
   */
  lemma {:induction false} LoneLog<T>(s: State<T>, id: nat, rec: T)
    requires Inv(s) && id !in s.threads
    ensures var s1 := Step(s, Log(id, rec));
      if s.head - s.tail < RING then
        var r := Times(Times(s1, Advance(id, false), 2), Advance(id, false), 3);
        && r.claims == s.claims + [rec] && r.dropped == s.dropped
        && r.slots[Slot(s.head)] == Whole(rec) && r.ready[Slot(s.head)] == s.head + 1
        && id !in r.threads
      else
        var r := Times(s1, Advance(id, false), 2);
        && r.claims == s.claims && r.dropped == s.dropped + 1
        && id !in r.threads
  {
    var s1 := Step(s, Log(id, rec));
    LogKeeps(s, id, rec);
    AtHeadDecides(s1, id);
    if s.head - s.tail < RING { OwnerFinishes(Times(s1, Advance(id, false), 2), id); }
    hide Times, Inv;
  }

  /** A compare-and-swap that fails because others claimed in between loads the head there is and decides on it. */
  lemma {:induction false} RetryDecides<T>(s: State<T>, id: nat)
    requires Inv(s) && id in s.threads && s.threads[id].Checked? && Word(s.head) != Word(s.threads[id].h)
    ensures var rec, r := s.threads[id].r, Times(Step(s, Advance(id, false)), Advance(id, false), 2);
      if s.head - s.tail < RING then r.claims == s.claims + [rec] && r.dropped == s.dropped
      else r.claims == s.claims && r.dropped == s.dropped + 1
  {
    UndecidedStep(s, id, Loaded(s.threads[id].r, s.head));
    AtHeadDecides(Step(s, Advance(id, false)), id);
    hide Times, Inv;
  }

  /**
   In every interleaving, the head a call goes by is at least the number of positions claimed
   when the call began: a call never sees an older ring than the one it was made on.
   */
  lemma {:induction false} HeadIsNoOlderThanTheCall<T>(acts: seq<Action<T>>, id: nat, rec: T, more: seq<Action<T>>)
    requires id !in Run(acts).threads
    ensures var s := Run(acts + [Log(id, rec)] + more);
      && Run(acts).head <= s.head
      && (id in s.threads && (s.threads[id].Loaded? || s.threads[id].Checked?) ==> s.threads[id].h >= Run(acts).head)
  {
    var first := acts + [Log(id, rec)];
    if more == [] {
      assert first + more == first && first[..|first| - 1] == acts;
    } else {
      var all := first + more;
      assert all[..|all| - 1] == first + more[..|more| - 1] && all[|all| - 1] == more[|more| - 1];
      HeadIsNoOlderThanTheCall(acts, id, rec, more[..|more| - 1]);
      HeadStaysAhead(Run(first + more[..|more| - 1]), more[|more| - 1], id, Run(acts).head);
      hide Run;
    }
  }

  lemma {:induction false} HeadStaysAhead<T>(s: State<T>, a: Action<T>, id: nat, n: nat)
    requires Shape(s) && n <= s.head
    requires id in s.threads && (s.threads[id].Loaded? || s.threads[id].Checked?) ==> s.threads[id].h >= n
    ensures var r := Step(s, a);
      && n <= r.head
      && (id in r.threads && (r.threads[id].Loaded? || r.threads[id].Checked?) ==> r.threads[id].h >= n)
  {
    if a.Advance? && a.id in s.threads { CallKeepsHeads(s, a.id, a.spurious, id); }
    hide Slot, Behind, Word, CallStep;
  }

  /** A step of one call never lowers the head, and gives the call the head there is or the one it had. */
  lemma {:induction false} CallKeepsHeads<T>(s: State<T>, who: nat, spurious: bool, id: nat)
    requires Shape(s) && who in s.threads
    ensures var r := CallStep(s, who, spurious);
      && s.head <= r.head
      && (id in r.threads && id != who ==> id in s.threads && r.threads[id] == s.threads[id])
      && (id in r.threads && id == who && (r.threads[id].Loaded? || r.threads[id].Checked?) ==>
            || r.threads[id].h == s.head
            || ((s.threads[id].Loaded? || s.threads[id].Checked?) && r.threads[id].h == s.threads[id].h))
  {
    hide Slot, Behind, Word;
  }

  // ---- what the drainer comes to

  /** An idle drainer at a stamped record prints it within five steps of its own, within one turn of the counters. */
  lemma {:induction false} DrainerTakesNext<T>(s: State<T>)
    requires Inv(s) && s.drainer.DTop? && s.tail < s.head && s.ready[Slot(s.tail)] == s.tail + 1
    requires s.tail / TWO64 == s.head / TWO64
    ensures Times(s, Drain, 5).output == s.output + [s.claims[s.tail]]
  {
    WordsApart(s.tail, s.head);
    LaterWord(s.tail, s.head);
    var t, h := s.tail, s.head;
    TimesNext(s, s.(drainer := DHead(h)), Drain, 5);
    TimesNext(s.(drainer := DHead(h)), s.(drainer := DBoth(h, t)), Drain, 4);
    TimesNext(s.(drainer := DBoth(h, t)), s.(drainer := DScan(h, t)), Drain, 3);
    TimesNext(s.(drainer := DScan(h, t)), s.(drainer := DPrint(h, t)), Drain, 2);
    var r := s.(output := s.output + [s.claims[t]], drainer := DScan(h, t + 1));
    assert s.slots[Slot(t)] == Whole(s.claims[t]);
    TimesNext(s.(drainer := DPrint(h, t)), r, Drain, 1);
    assert Times(r, Drain, 0) == r;
    hide Times, Inv;
  }

  lemma {:induction false} RunningUntilStop<T>(acts: seq<Action<T>>)
    ensures Run(acts).running <==> Stop !in acts
  {
    if acts != [] {
      var before, a := acts[..|acts| - 1], acts[|acts| - 1];
      RunningUntilStop(before);
      assert acts == before + [a];
      RunningStep(Run(before), a);
      hide Step;
    }
  }

  lemma RunningStep<T>(s: State<T>, a: Action<T>)
    requires Shape(s)
    ensures Step(s, a).running == (s.running && !a.Stop?)
  {
  }

  /** A drainer with nothing pending exits at its next step exactly when stop() has been called. */
  lemma {:induction false} ExitsIffStopped<T>(acts: seq<Action<T>>)
    requires Run(acts).drainer.DIdle?
    ensures DrainStep(Run(acts)).drainer.DExited? <==> Stop in acts
  {
    RunningUntilStop(acts);
  }

  // ---- a drop with an empty ring

  /** Thread 0 reads head and stops; thread 1 logs b; the drainer prints b; thread 0 goes on. */
  function StaleHeadRun<T>(a: T, b: T): seq<Action<T>> {
    [Log(0, a), Log(1, b)] + Again(Advance(1, false), 5) + Again(Drain, 7) + Again(Advance(0, false), 2)
  }

  function Again<T>(act: Action<T>, n: nat): seq<Action<T>> {
    seq(n, _ => act)
  }

  lemma {:induction false} RunThen<T>(acts: seq<Action<T>>, act: Action<T>, n: nat)
    ensures Run(acts + Again(act, n)) == Times(Run(acts), act, n)
    decreases n
  {
    if n == 0 {
      assert acts + Again(act, n) == acts;
    } else {
      assert (acts + [act])[..|acts|] == acts;
      RunThen(acts + [act], act, n - 1);
      assert acts + Again(act, n) == acts + [act] + Again(act, n - 1);
    }
  }

  ghost function TwoLoaded<T>(a: T, b: T): State<T> {
    Init<T>().(threads := map[0 := Loaded(a, 0), 1 := Loaded(b, 0)], calls := 2)
  }

  ghost function OneStamped<T>(a: T, b: T): State<T> {
    TwoLoaded(a, b).(head := 1, claims := [b], slots := Init<T>().slots[0 := Whole(b)],
                     ready := Init<T>().ready[0 := 1], threads := map[0 := Loaded(a, 0)])
  }

  ghost function OnePrinted<T>(a: T, b: T): State<T> {
    OneStamped(a, b).(tail := 1, output := [b])
  }

  lemma FirstLogs<T>(a: T, b: T)
    ensures Run([Log(0, a), Log(1, b)]) == TwoLoaded(a, b)
  {
    var acts := [Log(0, a), Log(1, b)];
    assert acts[..1] == [Log(0, a)] && [Log(0, a)][..0] == [];
    assert Run([Log(0, a)]) == Init<T>().(threads := map[0 := Loaded(a, 0)], calls := 1);
  }

  lemma {:induction false} SecondLogs<T>(a: T, b: T)
    ensures Times(TwoLoaded(a, b), Advance(1, false), 5) == OneStamped(a, b)
  {
    var s, act: Action<T> := TwoLoaded(a, b), Advance(1, false);
    BehindExact(0, 0);
    assert Slot(0) == 0;
    var checked := s.(threads := s.threads[1 := Checked(b, 0)]);
    var claimed := AfterClaim(checked, 1, b);
    var writing := AfterWrite(claimed, 1, Torn, Writing(b, 0));
    var stamping := AfterWrite(writing, 1, Whole(b), Stamping(b, 0));
    assert Times(s, act, 5) == Times(checked, act, 4);
    assert Times(checked, act, 4) == Times(claimed, act, 3);
    assert Times(claimed, act, 3) == Times(writing, act, 2);
    assert Times(writing, act, 2) == Times(stamping, act, 1);
    assert Times(stamping, act, 1) == AfterStamp(stamping, 1, 0);
    assert stamping.threads - {1} == map[0 := Loaded(a, 0)];
    assert stamping.slots == OneStamped(a, b).slots;
  }

  lemma {:induction false} DrainerFinds<T>(a: T, b: T)
    ensures Times(OneStamped(a, b), Drain, 7) == Times(OneStamped(a, b).(drainer := DPrint(1, 0)), Drain, 3)
  {
    hide Times;
    var s := OneStamped(a, b);
    assert Slot(0) == 0;
    TimesNext(s, s.(drainer := DHead(1)), Drain, 7);
    TimesNext(s.(drainer := DHead(1)), s.(drainer := DBoth(1, 0)), Drain, 6);
    TimesNext(s.(drainer := DBoth(1, 0)), s.(drainer := DScan(1, 0)), Drain, 5);
    TimesNext(s.(drainer := DScan(1, 0)), s.(drainer := DPrint(1, 0)), Drain, 4);
  }

  lemma {:induction false} DrainerPrints<T>(a: T, b: T)
    ensures Times(OneStamped(a, b), Drain, 7) == OnePrinted(a, b)
  {
    var s, end := OneStamped(a, b), OnePrinted(a, b);
    assert Times(end, Drain, 0) == end;
    hide Times;
    DrainerFinds(a, b);
    assert Slot(0) == 0;
    assert s.output + [b] == [b];
    var printed := s.(output := [b], drainer := DScan(1, 1));
    TimesNext(s.(drainer := DPrint(1, 0)), printed, Drain, 3);
    TimesNext(printed, printed.(drainer := DStore(1, 1)), Drain, 2);
    TimesNext(printed.(drainer := DStore(1, 1)), end, Drain, 1);
  }

  lemma {:induction false} FirstDrops<T>(a: T, b: T)
    ensures Times(OnePrinted(a, b), Advance(0, false), 2) == OnePrinted(a, b).(dropped := 1, threads := map[])
  {
    var s, act: Action<T> := OnePrinted(a, b), Advance(0, false);
    ModUnique(-1, TWO64, -1, TWO64 - 1);
    var dropping := s.(threads := map[0 := Dropping(a)]);
    assert Times(s, act, 2) == Times(dropping, act, 1);
    assert Times(dropping, act, 1) == s.(dropped := 1, threads := map[]);
  }

  /** A record is dropped although everything claimed has been printed and the whole ring is free. */
  lemma {:induction false} DropWithEmptyRing<T>(a: T, b: T)
    ensures var s := Run(StaleHeadRun(a, b));
      s.dropped == 1 && s.head == s.tail == 1 && s.output == s.claims == [b] && s.threads == map[]
  {
    var start := [Log(0, a), Log(1, b)];
    FirstLogs(a, b);
    RunThen(start, Advance(1, false), 5);
    SecondLogs(a, b);
    RunThen(start + Again(Advance(1, false), 5), Drain, 7);
    DrainerPrints(a, b);
    RunThen(start + Again(Advance(1, false), 5) + Again(Drain, 7), Advance(0, false), 2);
    FirstDrops(a, b);
    hide Run, Times, Step;
  }
}
