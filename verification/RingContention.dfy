/** Schedules that a two-slot ring and two threads really go through: an offer refused although
    there is room, by either route, and a Len that is overtaken. */
module RingContention {
  import opened Options
  import opened Words
  import opened RingProtocol
  import opened RingTheorems
  import opened RingOperations

  // ---------------------------------------------------------------- runs in pieces

  ghost function End<Item>(s: State<Item>, sched: Schedule<Item>): State<Item>
    requires Sized(s)
  {
    After(s, sched, |sched|)
  }

  /** The schedule `all` is `a` and then `b`. */
  ghost predicate Joined<Item>(all: Schedule<Item>, a: Schedule<Item>, b: Schedule<Item>) {
    && |all| == |a| + |b|
    && (forall i: nat :: i < |a| ==> all[i] == a[i])
    && (forall i: nat :: |a| <= i < |all| ==> all[i] == b[i - |a|])
  }

  lemma {:induction false} AfterPrefix<Item>(s: State<Item>, all: Schedule<Item>, a: Schedule<Item>, b: Schedule<Item>, n: nat)
    requires Sized(s) && Joined(all, a, b) && n <= |a|
    ensures After(s, all, n) == After(s, a, n)
    decreases n
  {
    if n > 0 {
      hide Step;
      AfterPrefix(s, all, a, b, n - 1);
    }
  }

  lemma {:induction false} AfterJoin<Item>(s: State<Item>, all: Schedule<Item>, a: Schedule<Item>, b: Schedule<Item>, n: nat)
    requires Sized(s) && Joined(all, a, b) && n <= |b|
    ensures After(s, all, |a| + n) == After(End(s, a), b, n)
    decreases n
  {
    hide Step;
    if n == 0 {
      AfterPrefix(s, all, a, b, |a|);
    } else {
      AfterJoin(s, all, a, b, n - 1);
      assert all[|a| + n - 1] == b[n - 1];
    }
  }

  lemma EndOne<Item>(s: State<Item>, t: nat, a: Action<Item>)
    requires Sized(s)
    ensures End(s, [(t, a)]) == Step(s, t, a)
  {
    hide Step;
    assert After(s, [(t, a)], 0) == s;
  }

  /** One more step of thread t. */
  lemma Then<Item>(s0: State<Item>, sched: Schedule<Item>, t: nat, a: Action<Item>)
    requires Sized(s0)
    ensures End(s0, sched + [(t, a)]) == Step(End(s0, sched), t, a)
    ensures |sched + [(t, a)]| == |sched| + 1
  {
    hide Step;
    AfterJoin(s0, sched + [(t, a)], sched, [(t, a)], 1);
    EndOne(End(s0, sched), t, a);
  }

  // ---------------------------------------------------------------- operations in one go

  /** The ring after thread t put `item`. */
  function Published<Item>(s: State<Item>, t: nat, item: Item): State<Item>
    requires Sized(s) && t < |s.threads|
  {
    s.(queue := s.queue + 1, puts := s.puts + [item], threads := s.threads[t := Idle(Stored)],
       nodes := s.nodes[Slot(s.mask, s.queue) := Node(s.queue + 1, Some(item))])
  }

  function PutActions<Item>(t: nat, item: Item): Schedule<Item> {
    [(t, StartPut(item, false)), (t, Go(false)), (t, Go(false)), (t, Go(false)), (t, Go(false)), (t, Go(false))]
  }

  lemma PutInOneGo<Item>(s: State<Item>, t: nat, item: Item)
    requires Sized(s) && t < |s.threads| && s.threads[t].Idle? && !s.disposed && s.queue + 1 < WORD
    requires NodeAt(s, s.queue).position == s.queue
    ensures End(s, PutActions(t, item)) == Published(s, t, item)
  {
    var q := s.queue;
    var s1 := Goto(s, t, PutCheck(item, false, q));
    var s2 := Goto(s, t, PutLoad(item, false, q));
    var s3 := Goto(s, t, PutCas(item, false, q));
    var s4 := PutClaim(s, t, item, q);
    assert s4 == PutClaim(s3, t, item, q);
    var s5 := Goto(SetNode(s4, q, NodeAt(s4, q).(data := Some(item))), t, PutPublish(item, q));
    var s6 := Published(s, t, item);
    var run := [s, s1, s2, s3, s4, s5, s6];
    PutEnds(s4, t, item, q);
    var c := PutActions(t, item);
    RunOf(s, c, run);
  }

  lemma PutEnds<Item>(s: State<Item>, t: nat, item: Item, q: nat)
    requires Sized(s) && t < |s.threads| && s.threads[t] == PutWrite(item, q) && q + 1 < WORD
    ensures var s5 := Goto(SetNode(s, q, NodeAt(s, q).(data := Some(item))), t, PutPublish(item, q));
            && Sized(s5) && Step(s, t, Go(false)) == s5
            && Step(s5, t, Go(false))
               == s.(threads := s.threads[t := Idle(Stored)], nodes := s.nodes[Slot(s.mask, q) := Node(q + 1, Some(item))])
  {
  }

  lemma {:induction false} RunOf<Item>(s: State<Item>, sched: Schedule<Item>, run: seq<State<Item>>)
    requires Sized(s) && |run| == |sched| + 1 && run[0] == s
    requires forall i: nat :: i < |run| ==> Sized(run[i])
    requires forall i: nat :: i < |sched| ==> run[i + 1] == Step(run[i], sched[i].0, sched[i].1)
    ensures End(s, sched) == run[|sched|]
    decreases |sched|
  {
    hide Step;
    if sched != [] {
      var n: nat := |sched| - 1;
      var less := sched[..n];
      RunOf(s, less, run[..n + 1]);
      assert sched == less + [sched[n]];
      Then(s, less, sched[n].0, sched[n].1);
    }
  }

  /** A poll up to its claim: it has the ticket and still stands on the slot. */
  function ClaimActions<Item>(t: nat): Schedule<Item> {
    [(t, StartPoll(false)), (t, Go(false)), (t, Go(false)), (t, Go(false))]
  }

  function Claimed<Item>(s: State<Item>, t: nat): State<Item>
    requires t < |s.threads|
  {
    s.(dequeue := s.dequeue + 1, threads := s.threads[t := GetRead(s.dequeue)])
  }

  lemma ClaimInOneGo<Item>(s: State<Item>, t: nat)
    requires Sized(s) && t < |s.threads| && s.threads[t].Idle? && !s.disposed && s.dequeue + 1 < WORD
    requires NodeAt(s, s.dequeue).position == s.dequeue + 1
    ensures End(s, ClaimActions(t)) == Claimed(s, t)
  {
    var d := s.dequeue;
    var run := [s, Goto(s, t, GetCheck(false, d)), Goto(s, t, GetLoad(false, d)), Goto(s, t, GetCas(false, d)), Claimed(s, t)];
    RunOf(s, ClaimActions(t), run);
  }

  function OfferActions<Item>(t: nat, item: Item): Schedule<Item> {
    [(t, StartPut(item, true)), (t, Go(false)), (t, Go(false))]
  }

  /** An offer up to and including its look at the slot. */
  lemma OfferLooks<Item>(s: State<Item>, t: nat, item: Item)
    requires Sized(s) && t < |s.threads| && s.threads[t].Idle? && !s.disposed && s.queue < WORD
    requires NodeAt(s, s.queue).position < WORD
    ensures End(s, OfferActions(t, item))
         == Goto(s, t, if NodeAt(s, s.queue).position == s.queue then PutCas(item, true, s.queue) else PutReload(item, true))
  {
    var q := s.queue;
    WordDifference(NodeAt(s, q).position, q);
    var last := Goto(s, t, if NodeAt(s, q).position == q then PutCas(item, true, q) else PutReload(item, true));
    RunOf(s, OfferActions(t, item), [s, Goto(s, t, PutCheck(item, true, q)), Goto(s, t, PutLoad(item, true, q)), last]);
  }

  // ---------------------------------------------------------------- two slots

  lemma TwoSlots()
    ensures IsPow2(2) && Slot(1, 0) == 0 && Slot(1, 1) == 1 && Slot(1, 2) == 0
  {
    assert Pow2(1) == 2 by { assert Pow2(0) == 1; }
    SlotIsMod(1, 0);
    SlotIsMod(1, 1);
    SlotIsMod(1, 2);
  }

  /** Two slots, two threads. */
  function Two<Item>(queue: nat, dequeue: nat, n0: Node<Item>, n1: Node<Item>, t0: Pc<Item>, t1: Pc<Item>,
                     puts: seq<Item>): State<Item> {
    State(1, queue, dequeue, false, [n0, n1], [t0, t1], puts, map[])
  }

  lemma TwoInit<Item>()
    ensures Init<Item>(1, 2) == Two(0, 0, Node(0, None), Node(1, None), Idle(NotRun), Idle(NotRun), [])
  {
  }

  lemma Append<Item>(s0: State<Item>, all: Schedule<Item>, a: Schedule<Item>, b: Schedule<Item>)
    requires Sized(s0) && Joined(all, a, b)
    ensures After(s0, all, |a|) == End(s0, a)
    ensures End(s0, all) == End(End(s0, a), b)
  {
    hide Step, Joined;
    AfterPrefix(s0, all, a, b, |a|);
    AfterJoin(s0, all, a, b, |b|);
    assert |all| == |a| + |b| by { JoinedLength(all, a, b); }
  }

  lemma JoinedLength<Item>(all: Schedule<Item>, a: Schedule<Item>, b: Schedule<Item>)
    requires Joined(all, a, b)
    ensures |all| == |a| + |b|
  {
  }

  lemma {:induction false} DequeueGrows<Item>(s: State<Item>, sched: Schedule<Item>, m: nat, n: nat)
    requires Inv(s) && m <= n <= |sched| && Small(End(s, sched))
    ensures After(s, sched, m).dequeue <= After(s, sched, n).dequeue
    ensures After(s, sched, n).queue == |After(s, sched, n).puts|
    decreases n
  {
    hide Step;
    ReachableInv(s, sched, n);
    if m < n {
      ReachableInv(s, sched, n - 1);
      DequeueGrows(s, sched, m, n - 1);
      DequeueStep(After(s, sched, n - 1), sched[n - 1].0, sched[n - 1].1);
    }
  }

  lemma DequeueStep<Item>(s: State<Item>, t: nat, a: Action<Item>)
    requires Inv(s)
    ensures s.dequeue <= Step(s, t, a).dequeue
  {
    if Claims(s, t) { assert PcOk(s, s.threads[t]); }
  }

  /** The counters only grow: fewer items put by the end than slots above the tickets taken at
      the start, and the ring is not full at any time between. */
  lemma RoomThroughout<Item>(s: State<Item>, sched: Schedule<Item>, n: nat, i: nat)
    requires Inv(s) && n <= i <= |sched| && Small(End(s, sched))
    requires |End(s, sched).puts| < After(s, sched, n).dequeue + Cap(s)
    ensures After(s, sched, i).queue < After(s, sched, i).dequeue + Cap(After(s, sched, i))
  {
    hide Step;
    DequeueGrows(s, sched, n, i);
    PutsGrow(s, sched, i, |sched|);
    PutsGrow(s, sched, i, i);
  }

  /** From step n on thread 0 runs an offer and nothing else, and it ends refused, with a free
      slot all the time. */
  ghost predicate RefusedWithRoom<Item>(sched: Schedule<Item>, n: nat)
    requires IsPow2(2)
  {
    var s0 := Init<Item>(1, 2);
    && n < |sched| && sched[n].0 == 0 && sched[n].1.StartPut? && sched[n].1.offer
    && (forall i: nat :: n < i < |sched| && sched[i].0 == 0 ==> sched[i].1.Go?)
    && PcAt(s0, sched, 0, n).Idle? && PcAt(s0, sched, 0, |sched|) == Idle(Refused)
    && Small(End(s0, sched))
    && forall i: nat :: n <= i <= |sched| ==>
         After(s0, sched, i).queue < After(s0, sched, i).dequeue + Cap(After(s0, sched, i))
  }

  lemma HasRoom<Item>(sched: Schedule<Item>, n: nat)
    requires IsPow2(2) && n <= |sched| && Small(End(Init<Item>(1, 2), sched))
    requires |End(Init<Item>(1, 2), sched).puts| < After(Init<Item>(1, 2), sched, n).dequeue + 2
    ensures forall i: nat :: n <= i <= |sched| ==>
              After(Init<Item>(1, 2), sched, i).queue
              < After(Init<Item>(1, 2), sched, i).dequeue + Cap(After(Init<Item>(1, 2), sched, i))
  {
    var s0 := Init<Item>(1, 2);
    InitInv<Item>(1, 2);
    forall i: nat | n <= i <= |sched|
      ensures After(s0, sched, i).queue < After(s0, sched, i).dequeue + Cap(After(s0, sched, i))
    {
      RoomThroughout(s0, sched, n, i);
    }
  }

  /** The first route: the offer's compare-and-swap is lost to another producer. */
  lemma LostRaceRefuses<Item>(x: Item) returns (sched: Schedule<Item>)
    ensures IsPow2(2) && RefusedWithRoom(sched, 0)
  {
    hide After, Step;
    TwoSlots();
    TwoInit<Item>();
    var s0 := Init<Item>(1, 2);
    var s1 := Two(0, 0, Node(0, None), Node(1, None), PutCas(x, true, 0), Idle(NotRun), []);
    var s2 := Two(1, 0, Node(1, Some(x)), Node(1, None), PutCas(x, true, 0), Idle(Stored), [x]);
    var s3 := Two(1, 0, Node(1, Some(x)), Node(1, None), Idle(Refused), Idle(Stored), [x]);
    OfferLooks(s0, 0, x);
    PutInOneGo(s1, 1, x);
    assert Published(s1, 1, x) == s2;
    LostCas(s2, 0, x, 0);
    EndOne(s2, 0, Go(false));
    var first := OfferActions(0, x);
    var second := first + PutActions(1, x);
    sched := second + [(0, Go(false))];
    assert first[0] == second[0] == sched[0] == (0, StartPut(x, true));
    assert End(s0, first) == s1;
    Append(s0, second, first, PutActions(1, x));
    Append(s0, sched, second, [(0, Go(false))]);
    assert End(s0, sched) == s3;
    AtStart(s0, sched);
    HasRoom(sched, 0);
  }

  lemma AtStart<Item>(s: State<Item>, sched: Schedule<Item>)
    requires Sized(s)
    ensures After(s, sched, 0) == s
  {
  }

  lemma LostCas<Item>(s: State<Item>, t: nat, item: Item, pos: nat)
    requires Sized(s) && t < |s.threads| && s.threads[t] == PutCas(item, true, pos) && s.queue != pos
    ensures Step(s, t, Go(false)) == Goto(s, t, Idle(Refused))
  {
  }

  lemma Reloads<Item>(s: State<Item>, t: nat, item: Item)
    requires Sized(s) && t < |s.threads| && s.threads[t] == PutReload(item, true)
    ensures Step(s, t, Go(false)) == Goto(s, t, Idle(Refused))
  {
  }

  /** The second route: the slot's last consumer has its ticket but has not left the slot; no
      compare-and-swap is tried at all. */
  lemma BusySlotRefuses<Item>(x: Item) returns (sched: Schedule<Item>, n: nat)
    ensures IsPow2(2) && RefusedWithRoom(sched, n)
  {
    hide After, Step;
    TwoSlots();
    TwoInit<Item>();
    var s0 := Init<Item>(1, 2);
    var full0, full1 := Node(1, Some(x)), Node(2, Some(x));
    var s1 := Two(1, 0, full0, Node(1, None), Idle(Stored), Idle(NotRun), [x]);
    var s2 := Two(2, 0, full0, full1, Idle(Stored), Idle(NotRun), [x, x]);
    var s3 := Two(2, 1, full0, full1, Idle(Stored), GetRead(0), [x, x]);
    var s4 := Two(2, 1, full0, full1, PutReload(x, true), GetRead(0), [x, x]);
    var s5 := Two(2, 1, full0, full1, Idle(Refused), GetRead(0), [x, x]);
    PutInOneGo(s0, 0, x);
    assert Published(s0, 0, x) == s1;
    PutInOneGo(s1, 0, x);
    assert Published(s1, 0, x) == s2;
    ClaimInOneGo(s2, 1);
    assert Claimed(s2, 1) == s3;
    OfferLooks(s3, 0, x);
    Reloads(s4, 0, x);
    EndOne(s4, 0, Go(false));
    var c1 := PutActions(0, x);
    var c2 := c1 + PutActions(0, x);
    var c3 := c2 + ClaimActions(1);
    var c4 := c3 + OfferActions(0, x);
    sched := c4 + [(0, Go(false))];
    n := |c3|;
    assert End(s0, c1) == s1;
    Append(s0, c2, c1, PutActions(0, x));
    Append(s0, c3, c2, ClaimActions(1));
    Append(s0, c4, c3, OfferActions(0, x));
    assert End(s0, c4) == s4;
    Append(s0, sched, c4, [(0, Go(false))]);
    assert End(s0, sched) == s5;
    assert sched[n] == c4[n] == OfferActions(0, x)[0];
    AfterPrefix(s0, sched, c4, [(0, Go(false))], n);
    HasRoom(sched, n);
  }

  /** Len loads `queue`, a put and a poll go by, and it loads `dequeue`: the difference wraps to
      the largest uint64. */
  lemma LenOvertaken<Item>(x: Item) returns (sched: Schedule<Item>)
    ensures IsPow2(2)
    ensures var s := End(Init<Item>(1, 2), sched);
            && Small(s) && |s.threads| == 2 && s.threads[0].LenSecond? && s.threads[0].q < s.dequeue
            && Step(s, 0, Go(false)).threads[0] == Idle(Length(WORD - 1))
  {
    hide After;
    TwoSlots();
    TwoInit<Item>();
    var s0 := Init<Item>(1, 2);
    var s1 := Two(0, 0, Node(0, None), Node(1, None), LenSecond(0), Idle(NotRun), []);
    var s2 := Two(1, 0, Node(1, Some(x)), Node(1, None), LenSecond(0), Idle(Stored), [x]);
    var s3 := Two(1, 1, Node(1, Some(x)), Node(1, None), LenSecond(0), GetRead(0), [x]);
    assert Step(s0, 0, StartLen) == s1;
    EndOne(s0, 0, StartLen);
    PutInOneGo(s1, 1, x);
    assert Published(s1, 1, x) == s2;
    ClaimInOneGo(s2, 1);
    assert Claimed(s2, 1) == s3;
    var first := [(0, StartLen)];
    var second := first + PutActions(1, x);
    sched := second + ClaimActions(1);
    Append(s0, second, first, PutActions(1, x));
    Append(s0, sched, second, ClaimActions(1));
  }

  // ---------------------------------------------------------------- Len and the lengths it spans

  lemma CountersGrow<Item>(s: State<Item>, sched: Schedule<Item>, m: nat, n: nat)
    requires Inv(s) && m <= n <= |sched| && Small(End(s, sched))
    ensures var a, b := After(s, sched, m), After(s, sched, n);
            && a.queue <= b.queue && a.dequeue <= b.dequeue && b.dequeue <= b.queue <= b.dequeue + Cap(s)
  {
    hide Step;
    DequeueGrows(s, sched, m, n);
    DequeueGrows(s, sched, m, m);
    PutsGrow(s, sched, m, n);
    PutsGrow(s, sched, n, n);
    ReachableInv(s, sched, n);
  }

  /** A Len whose two loads are steps i and j of a run, against the length at any moment between:
      unless gets have overtaken the first load, it returns a lower bound, and the length of that
      moment exactly when every put claimed between the loads came after it and every get before. */
  lemma LenIsLowerBound<Item>(s0: State<Item>, sched: Schedule<Item>, t: nat, i: nat, j: nat, k: nat)
    requires Inv(s0) && t < |s0.threads| && Small(End(s0, sched)) && NextOwn(sched, t, i, j) && i <= k <= j
    requires sched[i] == (t, StartLen) && PcAt(s0, sched, t, i).Idle?
    ensures var q, d := After(s0, sched, i).queue, After(s0, sched, j).dequeue;
            var n, s := (q - d) % WORD, After(s0, sched, k);
            && PcAt(s0, sched, t, j + 1) == Idle(Length(n))
            && if d <= q then
                 && n == q - d <= s.queue - s.dequeue <= Cap(s0)
                 && (n == s.queue - s.dequeue <==> s.queue == q && s.dequeue == d)
               else Cap(s0) < n
  {
    hide Step, After, PcAt, Inv, Small;
    assert Sized(s0) by { InvSized(s0); }
    LenLoads(s0, sched, t, i, j);
    CountersGrow(s0, sched, i, k);
    CountersGrow(s0, sched, k, j);
    CountersGrow(s0, sched, i, j);
    CountersSmall(s0, sched, j);
    var q, d := After(s0, sched, i).queue, After(s0, sched, j).dequeue;
    if d > q { assert (q - d) % WORD == WORD + q - d; }
  }

  lemma CountersSmall<Item>(s: State<Item>, sched: Schedule<Item>, n: nat)
    requires Inv(s) && n <= |sched| && Small(End(s, sched))
    ensures After(s, sched, n).queue + Cap(s) < WORD
  {
    hide Step;
    ReachableInv(s, sched, n);
    PutsGrow(s, sched, n, n);
  }

  lemma LenLoads<Item>(s0: State<Item>, sched: Schedule<Item>, t: nat, i: nat, j: nat)
    requires Sized(s0) && t < |s0.threads| && NextOwn(sched, t, i, j)
    requires sched[i] == (t, StartLen) && PcAt(s0, sched, t, i).Idle?
    ensures PcAt(s0, sched, t, j + 1) == Idle(Length((After(s0, sched, i).queue - After(s0, sched, j).dequeue) % WORD))
  {
    NextOwnStep(s0, sched, t, i, j);
    SameThreads(s0, sched, i);
    LenSteps(After(s0, sched, i), t);
    LenReturns(After(s0, sched, j), t, After(s0, sched, i).queue, sched[j].1);
  }

  lemma LenSteps<Item>(s: State<Item>, t: nat)
    requires Sized(s) && t < |s.threads| && s.threads[t].Idle?
    ensures Step(s, t, StartLen).threads[t] == LenSecond(s.queue)
  {
  }

  lemma LenReturns<Item>(s: State<Item>, t: nat, q: nat, a: Action<Item>)
    requires Sized(s) && t < |s.threads| && s.threads[t] == LenSecond(q)
    ensures Step(s, t, a) == Goto(s, t, Idle(Length((q - s.dequeue) % WORD)))
  {
  }

  /** With one item in the ring Len loads `queue`, another put and then a poll go by, and it
      returns 0, although the ring held an item all the time. */
  lemma LenNeverHeld<Item>(x: Item) returns (sched: Schedule<Item>, n: nat)
    ensures IsPow2(2)
    ensures var s0 := Init<Item>(1, 2);
            && n < |sched| && sched[n] == (0, StartLen) && PcAt(s0, sched, 0, n).Idle?
            && (forall i: nat :: n < i < |sched| - 1 ==> sched[i].0 != 0)
            && PcAt(s0, sched, 0, |sched|) == Idle(Length(0)) && Small(End(s0, sched))
            && forall i: nat :: n <= i <= |sched| ==> After(s0, sched, i).dequeue < After(s0, sched, i).queue
  {
    hide After, Step;
    TwoSlots();
    TwoInit<Item>();
    var s0 := Init<Item>(1, 2);
    var full0, full1 := Node(1, Some(x)), Node(2, Some(x));
    var s1 := Two(1, 0, full0, Node(1, None), Idle(NotRun), Idle(Stored), [x]);
    var s2 := Two(1, 0, full0, Node(1, None), LenSecond(1), Idle(Stored), [x]);
    var s3 := Two(2, 0, full0, full1, LenSecond(1), Idle(Stored), [x, x]);
    var s4 := Two(2, 1, full0, full1, LenSecond(1), GetRead(0), [x, x]);
    var s5 := Two(2, 1, full0, full1, Idle(Length(0)), GetRead(0), [x, x]);
    PutInOneGo(s0, 1, x);
    assert Published(s0, 1, x) == s1;
    LenBegins(s1);
    EndOne(s1, 0, StartLen);
    assert Goto(s1, 0, LenSecond(1)) == s2;
    PutInOneGo(s2, 1, x);
    assert Published(s2, 1, x) == s3;
    ClaimInOneGo(s3, 1);
    assert Claimed(s3, 1) == s4;
    LenReturns(s4, 0, 1, Go(false));
    EndOne(s4, 0, Go(false));
    assert Goto(s4, 0, Idle(Length(0))) == s5;
    var c1 := PutActions(1, x);
    var c2 := c1 + [(0, StartLen)];
    var c3 := c2 + PutActions(1, x);
    var c4 := c3 + ClaimActions(1);
    sched := c4 + [(0, Go(false))];
    n := |c1|;
    assert End(s0, c1) == s1;
    Append(s0, c2, c1, [(0, StartLen)]);
    Append(s0, c3, c2, PutActions(1, x));
    Append(s0, c4, c3, ClaimActions(1));
    Append(s0, sched, c4, [(0, Go(false))]);
    assert End(s0, sched) == s5;
    AfterPrefix(s0, sched, c4, [(0, Go(false))], n);
    AfterPrefix(s0, sched, c4, [(0, Go(false))], |c3|);
    AfterPrefix(s0, c4, c3, ClaimActions(1), n);
    AfterPrefix(s0, c4, c3, ClaimActions(1), |c3|);
    AfterPrefix(s0, c3, c2, PutActions(1, x), n);
    AfterPrefix(s0, c2, c1, [(0, StartLen)], n);
    NeverEmpty(sched, n, |c3|);
  }

  lemma LenBegins<Item>(s: State<Item>)
    requires Sized(s) && 0 < |s.threads| && s.threads[0].Idle?
    ensures Step(s, 0, StartLen) == Goto(s, 0, LenSecond(s.queue))
  {
  }

  /** One item from step n on and two at step m, before the only get: never empty. */
  lemma NeverEmpty<Item>(sched: Schedule<Item>, n: nat, m: nat)
    requires IsPow2(2) && n <= m <= |sched| && Small(End(Init<Item>(1, 2), sched))
    requires var s0 := Init<Item>(1, 2);
             && After(s0, sched, n).queue == 1 && After(s0, sched, m).queue == 2 && After(s0, sched, m).dequeue == 0
             && End(s0, sched).dequeue == 1
    ensures forall i: nat :: n <= i <= |sched| ==>
              After(Init<Item>(1, 2), sched, i).dequeue < After(Init<Item>(1, 2), sched, i).queue
  {
    var s0 := Init<Item>(1, 2);
    InitInv<Item>(1, 2);
    forall i: nat | n <= i <= |sched| ensures After(s0, sched, i).dequeue < After(s0, sched, i).queue {
      CountersGrow(s0, sched, n, i);
      CountersGrow(s0, sched, i, |sched|);
      if i <= m { CountersGrow(s0, sched, i, m); } else { CountersGrow(s0, sched, m, i); }
    }
  }

  // ---------------------------------------------------------------- a poll that waits

  function PollActions<Item>(t: nat): Schedule<Item> {
    [(t, StartPoll(true)), (t, Go(false)), (t, Go(false)), (t, Go(true))]
  }

  /** A timed poll of an empty ring, alone, times out at its first look at the clock once that has
      run out, and leaves everything as it was. */
  lemma EmptyTimesOut<Item>(s: State<Item>, t: nat)
    requires Inv(s) && t < |s.threads| && s.threads[t].Idle? && !s.disposed && s.dequeue == s.queue
    ensures Sized(s) && End(s, PollActions(t)) == s.(threads := s.threads[t := Idle(TimedOut)])
  {
    var d := s.dequeue;
    assert OpenTicket(s, d);
    PositionsSmall(s, d);
    WordDifference(NodeAt(s, d).position, d + 1);
    var s1 := Goto(s, t, GetCheck(true, d));
    var s2 := Goto(s, t, GetLoad(true, d));
    var s3 := Goto(s, t, GetReload(true));
    assert NodeAt(s2, d) == NodeAt(s, d);
    RunOf(s, PollActions(t), [s, s1, s2, s3, Goto(s, t, Idle(TimedOut))]);
  }
}
