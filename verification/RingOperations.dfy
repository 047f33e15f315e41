/** Whole operations of the ring: what one put or poll does between its start and its return,
    whatever the other threads do meanwhile. */
module RingOperations {
  import opened Options
  import opened Words
  import opened RingProtocol
  import opened RingTheorems
  import opened RingProgress

  // ---------------------------------------------------------------- one effect per operation

  datatype Effect<+Item> = Added(item: Item) | Removed(item: Item)

  /** What a step of thread t does to the queue: the item it appends, or the head it takes. */
  function EffectOf<Item>(s: State<Item>, t: nat): seq<Effect<Item>> {
    match Label(s, t)
    case Nothing => []
    case Enqueue(item) => [Added(item)]
    case Dequeue => if s.dequeue < |s.puts| then [Removed(s.puts[s.dequeue])] else []
  }

  /** The effects of thread t's own steps from i on and before j. */
  ghost function Effects<Item>(s0: State<Item>, sched: Schedule<Item>, t: nat, i: nat, j: nat): seq<Effect<Item>>
    requires Sized(s0) && i <= j <= |sched|
    decreases j
  {
    if i == j then []
    else Effects(s0, sched, t, i, j - 1) + (if sched[j - 1].0 == t then EffectOf(After(s0, sched, j - 1), t) else [])
  }

  /** Thread t after n steps. */
  ghost function PcAt<Item>(s0: State<Item>, sched: Schedule<Item>, t: nat, n: nat): Pc<Item>
    requires Sized(s0) && n <= |sched|
  {
    var s := After(s0, sched, n);
    if t < |s.threads| then s.threads[t] else Idle(NotRun)
  }

  /** Thread t starts at step i and is back just before step j. */
  ghost predicate Operation<Item>(s0: State<Item>, sched: Schedule<Item>, t: nat, i: nat, j: nat)
    requires Sized(s0)
  {
    && i < j <= |sched| && t < |s0.threads| && sched[i].0 == t
    && PcAt(s0, sched, t, i).Idle? && PcAt(s0, sched, t, j).Idle?
    && forall k: nat :: i < k < j ==> !PcAt(s0, sched, t, k).Idle?
  }

  /** How far a put is and what it has done: nothing before its claim, its item ever after. */
  predicate PutMidway<Item(==)>(pc: Pc<Item>, item: Item, offer: bool, done: seq<Effect<Item>>) {
    match pc
    case PutCheck(x, o, _) => x == item && o == offer && done == []
    case PutLoad(x, o, _) => x == item && o == offer && done == []
    case PutCas(x, o, _) => x == item && o == offer && done == []
    case PutReload(x, o) => x == item && o == offer && done == []
    case PutWrite(x, _) => x == item && done == [Added(item)]
    case PutPublish(x, _) => x == item && done == [Added(item)]
    case Idle(Stored) => done == [Added(item)]
    case Idle(Refused) => offer && done == []
    case Idle(Disposed) => done == []
    case _ => false
  }

  predicate GetMidway<Item(==)>(puts: seq<Item>, pc: Pc<Item>, timed: bool, done: seq<Effect<Item>>) {
    match pc
    case GetCheck(o, _) => o == timed && done == []
    case GetLoad(o, _) => o == timed && done == []
    case GetCas(o, _) => o == timed && done == []
    case GetReload(o) => o == timed && done == []
    case GetRead(pos) => pos < |puts| && done == [Removed(puts[pos])]
    case GetClear(_, data) => data.Some? && done == [Removed(data.value)]
    case GetRecycle(_, data) => data.Some? && done == [Removed(data.value)]
    case Idle(Taken(data)) => data.Some? && done == [Removed(data.value)]
    case Idle(TimedOut) => timed && done == []
    case Idle(Disposed) => done == []
    case _ => false
  }

  lemma PutAdvances<Item>(s: State<Item>, t: nat, a: Action<Item>, item: Item, offer: bool, done: seq<Effect<Item>>)
    requires Sized(s) && t < |s.threads| && !s.threads[t].Idle? && PutMidway(s.threads[t], item, offer, done)
    ensures PutMidway(Step(s, t, a).threads[t], item, offer, done + EffectOf(s, t))
  {
    hide Slot;
  }

  lemma GetAdvances<Item>(s: State<Item>, t: nat, a: Action<Item>, timed: bool, done: seq<Effect<Item>>)
    requires Inv(s) && t < |s.threads| && !s.threads[t].Idle? && GetMidway(s.puts, s.threads[t], timed, done)
    ensures GetMidway(Step(s, t, a).puts, Step(s, t, a).threads[t], timed, done + EffectOf(s, t))
  {
    assert PcOk(s, s.threads[t]);
    hide Slot;
  }

  lemma OthersPassive<Item>(s: State<Item>, t: nat, u: nat, a: Action<Item>)
    requires Sized(s) && t < |s.threads| && t != u
    ensures Step(s, u, a).threads[t] == s.threads[t] && s.puts <= Step(s, u, a).puts
  {
    StepKeepsPuts(s, u, a);
  }

  lemma {:induction false} PutProgress<Item>(s0: State<Item>, sched: Schedule<Item>, t: nat, i: nat, j: nat,
                                             item: Item, offer: bool)
    requires Sized(s0) && i < j <= |sched| && t < |s0.threads|
    requires sched[i] == (t, StartPut(item, offer)) && PcAt(s0, sched, t, i).Idle?
    requires forall k: nat :: i < k < j ==> !PcAt(s0, sched, t, k).Idle?
    ensures PutMidway(PcAt(s0, sched, t, j), item, offer, Effects(s0, sched, t, i, j))
    decreases j
  {
    hide Step, PutMidway, EffectOf;
    var s := After(s0, sched, j - 1);
    SameThreads(s0, sched, j - 1);
    SameThreads(s0, sched, j);
    if j == i + 1 {
      PutStarts(s, t, item, offer);
      assert Effects(s0, sched, t, i, i) == [];
    } else {
      PutProgress(s0, sched, t, i, j - 1, item, offer);
      if sched[j - 1].0 == t {
        PutAdvances(s, t, sched[j - 1].1, item, offer, Effects(s0, sched, t, i, j - 1));
      } else {
        assert Effects(s0, sched, t, i, j) == Effects(s0, sched, t, i, j - 1);
        OthersPassive(s, t, sched[j - 1].0, sched[j - 1].1);
      }
    }
  }

  lemma PutStarts<Item>(s: State<Item>, t: nat, item: Item, offer: bool)
    requires Sized(s) && t < |s.threads| && s.threads[t].Idle?
    ensures EffectOf(s, t) == [] && PutMidway(Step(s, t, StartPut(item, offer)).threads[t], item, offer, [])
  {
  }

  lemma SameThreads<Item>(s0: State<Item>, sched: Schedule<Item>, n: nat)
    requires Sized(s0) && n <= |sched|
    ensures |After(s0, sched, n).threads| == |s0.threads|
  {
    PutsGrow(s0, sched, n, n);
  }

  /** Between its start and its return a put takes effect exactly once if it ends stored, with
      its own item, and not at all if it ends refused or disposed; only an offer is refused. */
  lemma PutTakesEffectOnce<Item>(s0: State<Item>, sched: Schedule<Item>, t: nat, i: nat, j: nat)
    requires Sized(s0) && Operation(s0, sched, t, i, j) && sched[i].1.StartPut?
    ensures var r := PcAt(s0, sched, t, j).outcome;
            var effects := Effects(s0, sched, t, i, j);
            && (r.Stored? || r.Refused? || r.Disposed?)
            && effects == (if r.Stored? then [Added(sched[i].1.item)] else [])
            && (r.Refused? ==> sched[i].1.offer)
  {
    hide Step, PcAt;
    PutProgress(s0, sched, t, i, j, sched[i].1.item, sched[i].1.offer);
  }

  lemma {:induction false} GetProgress<Item>(s0: State<Item>, sched: Schedule<Item>, t: nat, i: nat, j: nat, timed: bool)
    requires Inv(s0) && i < j <= |sched| && t < |s0.threads| && Small(After(s0, sched, |sched|))
    requires sched[i] == (t, StartPoll(timed)) && PcAt(s0, sched, t, i).Idle?
    requires forall k: nat :: i < k < j ==> !PcAt(s0, sched, t, k).Idle?
    ensures GetMidway(After(s0, sched, j).puts, PcAt(s0, sched, t, j), timed, Effects(s0, sched, t, i, j))
    decreases j
  {
    hide Step, GetMidway, EffectOf, Inv;
    assert Sized(s0) by { InvSized(s0); }
    var s := After(s0, sched, j - 1);
    SameThreads(s0, sched, j - 1);
    SameThreads(s0, sched, j);
    ReachableInv(s0, sched, j - 1);
    if j == i + 1 {
      GetStarts(s, t, timed);
      assert Effects(s0, sched, t, i, i) == [];
    } else {
      GetProgress(s0, sched, t, i, j - 1, timed);
      if sched[j - 1].0 == t {
        GetAdvances(s, t, sched[j - 1].1, timed, Effects(s0, sched, t, i, j - 1));
      } else {
        assert Effects(s0, sched, t, i, j) == Effects(s0, sched, t, i, j - 1);
        OthersPassive(s, t, sched[j - 1].0, sched[j - 1].1);
        MorePuts(s.puts, After(s0, sched, j).puts, s.threads[t], timed, Effects(s0, sched, t, i, j));
      }
    }
  }

  lemma InvSized<Item>(s: State<Item>)
    requires Inv(s)
    ensures Sized(s)
  {
  }

  lemma GetStarts<Item>(s: State<Item>, t: nat, timed: bool)
    requires Sized(s) && t < |s.threads| && s.threads[t].Idle?
    ensures EffectOf(s, t) == []
    ensures GetMidway(Step(s, t, StartPoll(timed)).puts, Step(s, t, StartPoll(timed)).threads[t], timed, [])
  {
  }

  lemma MorePuts<Item>(puts: seq<Item>, more: seq<Item>, pc: Pc<Item>, timed: bool, done: seq<Effect<Item>>)
    requires puts <= more && GetMidway(puts, pc, timed, done)
    ensures GetMidway(more, pc, timed, done)
  {
  }

  /** Between its start and its return a poll that ends with an item takes exactly that item
      from the head of the queue, once; one that ends disposed or timed out takes nothing. */
  lemma PollTakesEffectOnce<Item>(s0: State<Item>, sched: Schedule<Item>, t: nat, i: nat, j: nat)
    requires Inv(s0) && Small(After(s0, sched, |sched|)) && Operation(s0, sched, t, i, j) && sched[i].1.StartPoll?
    ensures var r := PcAt(s0, sched, t, j).outcome;
            var effects := Effects(s0, sched, t, i, j);
            && (r.Taken? || r.TimedOut? || r.Disposed?)
            && (if r.Taken? then r.data.Some? && effects == [Removed(r.data.value)] else effects == [])
            && (r.TimedOut? ==> sched[i].1.timed)
  {
    hide Step, PcAt, Inv;
    GetProgress(s0, sched, t, i, j, sched[i].1.timed);
  }

  // ---------------------------------------------------------------- offers

  /** What a producer sees when it looks at the slot of its ticket: the position is the ticket
      exactly when the ticket is next, the ring is not full and the slot's last consumer is
      done; or when the ticket is stale and its producer has not published yet. */
  lemma LooksFreeIff<Item>(s: State<Item>, pos: nat)
    requires Inv(s) && Owned(s) && pos <= s.queue
    ensures NodeAt(s, pos).position == pos
       <==> (pos == s.queue && s.queue < s.dequeue + Cap(s) && !(Cap(s) <= pos && HasDrainer(s, pos - Cap(s))))
            || (s.dequeue <= pos < s.queue && HasWriter(s, pos))
  {
    if pos == s.queue && s.queue < s.dequeue + Cap(s) {
      NextSlot(s);
    } else if s.dequeue <= pos < s.queue {
      assert ClaimedTicket(s, pos);
      if t: nat :| t < |s.threads| && Writes(s.threads[t], pos) { assert PcOk(s, s.threads[t]); }
    } else if pos == s.queue {
      SameSlot(s, s.dequeue);
      assert ClaimedTicket(s, s.dequeue);
    } else {
      var p := WindowTicket(s, pos);
      if p < s.queue { assert ClaimedTicket(s, p); } else { assert OpenTicket(s, p); }
    }
  }

  lemma NextSlot<Item>(s: State<Item>)
    requires Inv(s) && Owned(s) && s.queue < s.dequeue + Cap(s)
    ensures NodeAt(s, s.queue).position == s.queue <==> !(Cap(s) <= s.queue && HasDrainer(s, s.queue - Cap(s)))
  {
    assert OpenTicket(s, s.queue);
    if Cap(s) <= s.queue {
      var p := s.queue - Cap(s);
      SameSlot(s, p);
      assert p in s.delivered || HasDrainer(s, p);
      if t: nat :| t < |s.threads| && Drains(s.threads[t], p) { assert PcOk(s, s.threads[t]); }
    }
  }

  /** Step k is thread t's first after step i. */
  ghost predicate NextOwn<Item>(sched: Schedule<Item>, t: nat, i: nat, k: nat) {
    i < k < |sched| && sched[k].0 == t && forall x: nat :: i < x < k ==> sched[x].0 != t
  }

  lemma {:induction false} PcStays<Item>(s0: State<Item>, sched: Schedule<Item>, t: nat, i: nat, k: nat)
    requires Sized(s0) && i <= k <= |sched| && forall x: nat :: i <= x < k ==> sched[x].0 != t
    ensures PcAt(s0, sched, t, k) == PcAt(s0, sched, t, i)
    decreases k
  {
    hide Step;
    if i < k {
      PcStays(s0, sched, t, i, k - 1);
      SameThreads(s0, sched, k - 1);
      SameThreads(s0, sched, k);
      if t < |s0.threads| { OthersPassive(After(s0, sched, k - 1), t, sched[k - 1].0, sched[k - 1].1); }
    }
  }

  /** What thread t does at its first step after step i. */
  lemma NextOwnStep<Item>(s0: State<Item>, sched: Schedule<Item>, t: nat, i: nat, k: nat)
    requires Sized(s0) && t < |s0.threads| && NextOwn(sched, t, i, k)
    ensures |After(s0, sched, k).threads| == |After(s0, sched, k + 1).threads| == |s0.threads|
    ensures After(s0, sched, k).threads[t] == PcAt(s0, sched, t, i + 1)
    ensures After(s0, sched, k + 1) == Step(After(s0, sched, k), t, sched[k].1)
  {
    hide Step;
    PcStays(s0, sched, t, i + 1, k);
    SameThreads(s0, sched, k);
    SameThreads(s0, sched, k + 1);
  }

  /** The state at an offer's load allows it: its ticket is next, the ring is not full, and the
      slot's last consumer has left. */
  predicate RoomAt<Item>(s: State<Item>, pos: nat) {
    && s.queue == pos && s.queue < s.dequeue + Cap(s)
    && !(Cap(s) <= pos && HasDrainer(s, pos - Cap(s)))
  }

  lemma OfferLoads<Item>(s: State<Item>, t: nat, a: Action<Item>, item: Item, pos: nat)
    requires Inv(s) && Owned(s) && t < |s.threads| && s.threads[t] == PutLoad(item, true, pos)
    ensures pos <= s.queue
    ensures var s' := Step(s, t, a);
            && t < |s'.threads|
            && (s'.threads[t] == PutCas(item, true, pos) || s'.threads[t] == PutReload(item, true))
            && (pos == s.queue ==> (s'.threads[t].PutCas? <==> RoomAt(s, pos)))
  {
    assert PcOk(s, s.threads[t]);
    LooksFreeIff(s, pos);
    PositionsSmall(s, pos);
    WordDifference(NodeAt(s, pos).position, pos);
    hide Inv, Owned, HasDrainer, HasWriter;
  }

  lemma OfferEnds<Item>(s: State<Item>, t: nat, a: Action<Item>, item: Item, pos: nat)
    requires Sized(s) && t < |s.threads|
    requires s.threads[t] == PutCas(item, true, pos) || s.threads[t] == PutReload(item, true)
    ensures Step(s, t, a).threads[t]
         == if s.threads[t].PutCas? && s.queue == pos then PutWrite(item, pos) else Idle(Refused)
  {
  }

  /** An offer on a ring that is not disposed looks at its slot at step l and decides at step m.
      It is refused exactly when its ticket is no longer next at m, or at l the ring was full or
      the slot's last consumer was not done. Otherwise it claims its ticket. */
  lemma OfferRefusedIff<Item>(mask: nat, threads: nat, sched: Schedule<Item>, t: nat, item: Item,
                              i: nat, k: nat, l: nat, m: nat)
    requires GoodMask(mask) && 1 <= mask && t < threads && i < |sched|
    requires Small(After(Init<Item>(mask, threads), sched, |sched|))
    requires sched[i] == (t, StartPut(item, true)) && PcAt(Init<Item>(mask, threads), sched, t, i).Idle?
    requires NextOwn(sched, t, i, k) && NextOwn(sched, t, k, l) && NextOwn(sched, t, l, m)
    requires !After(Init<Item>(mask, threads), sched, k).disposed
    ensures var s0 := Init<Item>(mask, threads);
            var pos := After(s0, sched, i).queue;
            var admitted := After(s0, sched, m).queue == pos && RoomAt(After(s0, sched, l), pos);
            PcAt(s0, sched, t, m + 1) == if admitted then PutWrite(item, pos) else Idle(Refused)
  {
    hide Step, Inv, Owned, Small;
    var s0 := Init<Item>(mask, threads);
    InitInv<Item>(mask, threads);
    InitOwned<Item>(mask, threads);
    SameThreads(s0, sched, i);
    SameThreads(s0, sched, i + 1);
    var pos := After(s0, sched, i).queue;
    OfferStarts(After(s0, sched, i), t, item);
    NextOwnStep(s0, sched, t, i, k);
    OfferChecks(After(s0, sched, k), t, sched[k].1, item, pos);
    NextOwnStep(s0, sched, t, k, l);
    ReachableOwned(s0, sched, l);
    ReachableOwned(s0, sched, m);
    OfferLoads(After(s0, sched, l), t, sched[l].1, item, pos);
    NextOwnStep(s0, sched, t, l, m);
    OfferEnds(After(s0, sched, m), t, sched[m].1, item, pos);
    PutsGrow(s0, sched, l, m);
    TicketsCountPuts(After(s0, sched, l));
    TicketsCountPuts(After(s0, sched, m));
  }

  lemma TicketsCountPuts<Item>(s: State<Item>)
    requires Inv(s)
    ensures s.queue == |s.puts|
  {
  }

  lemma OfferStarts<Item>(s: State<Item>, t: nat, item: Item)
    requires Sized(s) && t < |s.threads| && s.threads[t].Idle?
    ensures Step(s, t, StartPut(item, true)).threads[t] == PutCheck(item, true, s.queue)
  {
  }

  lemma OfferChecks<Item>(s: State<Item>, t: nat, a: Action<Item>, item: Item, pos: nat)
    requires Sized(s) && t < |s.threads| && s.threads[t] == PutCheck(item, true, pos) && !s.disposed
    ensures Step(s, t, a).threads[t] == PutLoad(item, true, pos)
  {
  }

  // ---------------------------------------------------------------- disposal and timeouts

  lemma DisposedStays<Item>(s: State<Item>, t: nat, a: Action<Item>)
    requires Sized(s)
    ensures s.disposed ==> Step(s, t, a).disposed
    ensures t < |s.threads| && s.threads[t].Idle? && a.Dispose? ==> Step(s, t, a) == s.(disposed := true)
  {
    hide Slot, PutLooked, GetLooked;
  }

  lemma {:induction false} DisposedAfter<Item>(s0: State<Item>, sched: Schedule<Item>, d: nat, n: nat)
    requires Sized(s0) && d <= n <= |sched| && After(s0, sched, d).disposed
    ensures After(s0, sched, n).disposed
    decreases n
  {
    if d < n {
      hide Step;
      DisposedAfter(s0, sched, d, n - 1);
      DisposedStays(After(s0, sched, n - 1), sched[n - 1].0, sched[n - 1].1);
    }
  }

  /** Where an operation of a disposed ring is before it comes to the check. */
  predicate Checking<Item>(pc: Pc<Item>) { pc.PutCheck? || pc.GetCheck? }

  lemma CheckStops<Item>(s: State<Item>, t: nat, a: Action<Item>)
    requires Sized(s) && t < |s.threads| && s.disposed
    ensures Checking(s.threads[t]) ==> Step(s, t, a).threads[t] == Idle(Disposed)
    ensures s.threads[t].Idle? && (a.StartPut? || a.StartPoll?) ==> Checking(Step(s, t, a).threads[t])
    ensures Checking(s.threads[t]) || s.threads[t].Idle? ==> EffectOf(s, t) == []
  {
  }

  lemma {:induction false} DisposedMidway<Item>(s0: State<Item>, sched: Schedule<Item>, t: nat, i: nat, k: nat)
    requires Sized(s0) && i < k <= |sched| && t < |s0.threads| && sched[i].0 == t && After(s0, sched, i).disposed
    requires PcAt(s0, sched, t, i).Idle? && (sched[i].1.StartPut? || sched[i].1.StartPoll?)
    requires forall x: nat :: i < x < k ==> !PcAt(s0, sched, t, x).Idle?
    ensures Checking(PcAt(s0, sched, t, k)) || PcAt(s0, sched, t, k) == Idle(Disposed)
    ensures Effects(s0, sched, t, i, k) == []
    decreases k
  {
    hide Step, EffectOf, Checking;
    var s := After(s0, sched, k - 1);
    SameThreads(s0, sched, k - 1);
    SameThreads(s0, sched, k);
    DisposedAfter(s0, sched, i, k - 1);
    if k - 1 > i { DisposedMidway(s0, sched, t, i, k - 1); }
    assert k - 1 == i ==> Effects(s0, sched, t, i, k - 1) == [];
    if sched[k - 1].0 == t {
      CheckStops(s, t, sched[k - 1].1);
    } else {
      OthersPassive(s, t, sched[k - 1].0, sched[k - 1].1);
    }
  }

  /** A put or poll that starts after some thread disposed the ring ends disposed and has no
      effect, whatever the others do. */
  lemma DisposedStops<Item>(s0: State<Item>, sched: Schedule<Item>, d: nat, t: nat, i: nat, j: nat)
    requires Sized(s0) && d < i && i < |sched| && sched[d].0 < |s0.threads|
    requires sched[d].1 == Dispose && PcAt(s0, sched, sched[d].0, d).Idle?
    requires Operation(s0, sched, t, i, j) && (sched[i].1.StartPut? || sched[i].1.StartPoll?)
    ensures PcAt(s0, sched, t, j) == Idle(Disposed) && Effects(s0, sched, t, i, j) == []
  {
    hide Step;
    SameThreads(s0, sched, d);
    DisposedStays(After(s0, sched, d), sched[d].0, sched[d].1);
    DisposedAfter(s0, sched, d + 1, i);
    DisposedMidway(s0, sched, t, i, j);
  }

  lemma OwnEnd<Item>(s: State<Item>, t: nat, a: Action<Item>)
    requires Sized(s) && t < |s.threads| && !s.threads[t].Idle?
    ensures Step(s, t, a).threads[t] == Idle(Disposed) ==> s.disposed
    ensures Step(s, t, a).threads[t] == Idle(TimedOut) ==> a == Go(true)
  {
    hide Slot;
  }

  /** An operation ends disposed only when the ring is, and timed out only when the clock has run
      out at its last look. */
  lemma EndsForCause<Item>(s0: State<Item>, sched: Schedule<Item>, t: nat, i: nat, j: nat)
    requires Sized(s0) && Operation(s0, sched, t, i, j) && (sched[i].1.StartPut? || sched[i].1.StartPoll?)
    ensures PcAt(s0, sched, t, j) == Idle(Disposed) ==> After(s0, sched, j).disposed
    ensures PcAt(s0, sched, t, j) == Idle(TimedOut) ==> sched[j - 1] == (t, Go(true))
  {
    hide Step;
    var s := After(s0, sched, j - 1);
    SameThreads(s0, sched, j - 1);
    SameThreads(s0, sched, j);
    if j - 1 == i {
      StartsBusy(s, t, sched[i].1);
    } else {
      if sched[j - 1].0 == t {
        OwnEnd(s, t, sched[j - 1].1);
      } else {
        OthersPassive(s, t, sched[j - 1].0, sched[j - 1].1);
      }
      DisposedStays(s, sched[j - 1].0, sched[j - 1].1);
    }
  }

  lemma StartsBusy<Item>(s: State<Item>, t: nat, a: Action<Item>)
    requires Sized(s) && t < |s.threads| && s.threads[t].Idle? && (a.StartPut? || a.StartPoll?)
    ensures !Step(s, t, a).threads[t].Idle?
  {
  }

  /** A timed poll gives up at a reload, or at a lost compare-and-swap, exactly when the clock has
      run out; any other poll goes on. */
  lemma GivesUpIff<Item>(s: State<Item>, t: nat, a: Action<Item>)
    requires Sized(s) && t < |s.threads|
    requires s.threads[t].GetReload? || (s.threads[t].GetCas? && s.dequeue != s.threads[t].pos)
    ensures var pc := Step(s, t, a).threads[t];
            && (pc == Idle(TimedOut) <==> s.threads[t].timed && a == Go(true))
            && (pc != Idle(TimedOut) ==> pc.GetCheck? && pc.timed == s.threads[t].timed)
  {
  }
}
