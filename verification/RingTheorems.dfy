/** What the ring protocol guarantees over every schedule of every number of threads. */
module RingTheorems {
  import opened Options
  import opened Words
  import opened RingProtocol

  // ---------------------------------------------------------------- the abstract queue

  /** The items claimed by a put and not yet by a get, oldest first. */
  function Contents<Item>(s: State<Item>): seq<Item>
    requires s.dequeue <= |s.puts|
  {
    s.puts[s.dequeue..]
  }

  datatype FifoOp<+Item> = Nothing | Enqueue(item: Item) | Dequeue

  /** A bounded FIFO queue. */
  ghost predicate FifoStep<Item>(cap: nat, before: seq<Item>, op: FifoOp<Item>, after: seq<Item>) {
    match op
    case Nothing => after == before
    case Enqueue(item) => |before| < cap && after == before + [item]
    case Dequeue => before != [] && after == before[1..]
  }

  /** The linearization points: the two successful compare-and-swaps, and nothing else. */
  function Label<Item>(s: State<Item>, t: nat): FifoOp<Item> {
    if t >= |s.threads| then Nothing else
    match s.threads[t]
    case PutCas(item, _, pos) => if s.queue == pos then Enqueue(item) else Nothing
    case GetCas(_, pos) => if s.dequeue == pos then Dequeue else Nothing
    case _ => Nothing
  }

  /** One step is one step of the FIFO, and a thread that dequeues is bound to the head item:
      it drains that ticket, whose item it returns (DeliversHead). */
  ghost predicate Refines<Item>(s: State<Item>, t: nat, s': State<Item>) {
    && s.dequeue <= |s.puts| && s'.dequeue <= |s'.puts|
    && FifoStep(Cap(s), Contents(s), Label(s, t), Contents(s'))
    && s.puts <= s'.puts
    && (Label(s, t).Dequeue? ==> t < |s'.threads| && Drains(s'.threads[t], s.dequeue))
  }

  lemma StepRefines<Item>(s: State<Item>, t: nat, a: Action<Item>)
    requires Inv(s) && Small(Step(s, t, a))
    ensures Refines(s, t, Step(s, t, a))
  {
    if Claims(s, t) {
      if s.threads[t].PutCas? { PutRefines(s, t, a); } else { GetRefines(s, t, a); }
    }
  }

  lemma PutRefines<Item>(s: State<Item>, t: nat, a: Action<Item>)
    requires Inv(s) && t < |s.threads| && s.threads[t].PutCas? && s.threads[t].pos == s.queue
    ensures Refines(s, t, Step(s, t, a))
  {
    PutClaimReady(s, t);
  }

  lemma GetRefines<Item>(s: State<Item>, t: nat, a: Action<Item>)
    requires Inv(s) && t < |s.threads| && s.threads[t].GetCas? && s.threads[t].pos == s.dequeue
    ensures Refines(s, t, Step(s, t, a))
  {
    GetClaimReady(s, t);
  }

  // ---------------------------------------------------------------- runs

  lemma StepKeepsPuts<Item>(s: State<Item>, t: nat, a: Action<Item>)
    requires Sized(s)
    ensures s.puts <= Step(s, t, a).puts
  {
    if Claims(s, t) {
    }
  }

  lemma {:induction false} PutsGrow<Item>(s: State<Item>, sched: Schedule<Item>, m: nat, n: nat)
    requires Sized(s) && m <= n <= |sched|
    ensures |After(s, sched, m).puts| <= |After(s, sched, n).puts|
    ensures After(s, sched, n).mask == s.mask && |After(s, sched, n).threads| == |s.threads|
    decreases n
  {
    if n > 0 {
      StepKeepsPuts(After(s, sched, n - 1), sched[n - 1].0, sched[n - 1].1);
      PutsGrow(s, sched, if m < n then m else n - 1, n - 1);
    }
  }

  lemma {:induction false} ReachableInv<Item>(s: State<Item>, sched: Schedule<Item>, n: nat)
    requires Inv(s) && n <= |sched| && Small(After(s, sched, |sched|))
    ensures Inv(After(s, sched, n)) && Small(After(s, sched, n))
    decreases n
  {
    PutsGrow(s, sched, n, |sched|);
    PutsGrow(s, sched, n, n);
    if n > 0 {
      ReachableInv(s, sched, n - 1);
      StepInv(After(s, sched, n - 1), sched[n - 1].0, sched[n - 1].1);
    }
  }

  ghost predicate GoodMask(mask: nat) { IsPow2(mask + 1) && mask + 1 < WORD }

  /** Linearizability: from a fresh ring of at least two slots, every schedule of any number of
      threads is step for step a run of a bounded FIFO queue. */
  lemma RingRefinesFifo<Item>(mask: nat, threads: nat, sched: Schedule<Item>, i: nat)
    requires GoodMask(mask) && 1 <= mask && i < |sched|
    requires Small(After(Init<Item>(mask, threads), sched, |sched|))
    ensures var s := After(Init<Item>(mask, threads), sched, i);
            Refines(s, sched[i].0, After(Init<Item>(mask, threads), sched, i + 1))
  {
    var s0 := Init<Item>(mask, threads);
    InitInv<Item>(mask, threads);
    ReachableInv(s0, sched, i);
    ReachableInv(s0, sched, i + 1);
    StepRefines(After(s0, sched, i), sched[i].0, sched[i].1);
  }

  /** A consumer that finishes ticket p returns the item whose put claimed ticket p, and no
      other consumer ever returned that ticket. */
  lemma DeliversHead<Item>(mask: nat, threads: nat, sched: Schedule<Item>, i: nat)
    requires GoodMask(mask) && 1 <= mask && i < |sched|
    requires Small(After(Init<Item>(mask, threads), sched, |sched|))
    ensures var s := After(Init<Item>(mask, threads), sched, i);
            var t := sched[i].0;
            && s.queue == |s.puts| && 0 <= s.queue - s.dequeue <= mask + 1
            && (forall p :: p in s.delivered ==> p < s.dequeue && s.delivered[p] == Some(s.puts[p]))
            && (t < |s.threads| && s.threads[t].GetRecycle? ==>
                  var p := s.threads[t].pos;
                  && p !in s.delivered && p < |s.puts|
                  && After(Init<Item>(mask, threads), sched, i + 1).threads[t] == Idle(Taken(Some(s.puts[p]))))
  {
    var s0 := Init<Item>(mask, threads);
    InitInv<Item>(mask, threads);
    ReachableInv(s0, sched, i);
    PutsGrow(s0, sched, i, i);
    var s := After(s0, sched, i);
    var t := sched[i].0;
    if t < |s.threads| && s.threads[t].GetRecycle? {
      assert PcOk(s, s.threads[t]);
      DeliverStep(s, t, s.threads[t].pos, sched[i].1);
    }
  }

  // ---------------------------------------------------------------- slot exclusivity

  predicate InWindow<Item>(pc: Pc<Item>) {
    pc.PutWrite? || pc.PutPublish? || pc.GetRead? || pc.GetClear? || pc.GetRecycle?
  }

  /** Two threads inside a claim window never stand on the same slot. */
  lemma SlotExclusive<Item>(s: State<Item>, t: nat, u: nat)
    requires Inv(s) && t < |s.threads| && u < |s.threads| && t != u
    requires InWindow(s.threads[t]) && InWindow(s.threads[u])
    ensures Slot(s.mask, s.threads[t].pos) != Slot(s.mask, s.threads[u].pos)
  {
    var p := WindowOf(s, t);
    var q := WindowOf(s, u);
    if p == q {
      if Writes(s.threads[t], p) { WritersApart(s, t, u, p); }
      else { DrainersApart(s, t, u, s.threads[t].pos); }
    }
    SlotsDistinct(s.mask, s.dequeue);
    assert Slot(s.mask, p) != Slot(s.mask, q);
  }

  /** The ticket of the current window that a claim occupies. */
  lemma WindowOf<Item>(s: State<Item>, t: nat) returns (p: nat)
    requires Inv(s) && t < |s.threads| && InWindow(s.threads[t])
    ensures s.dequeue <= p < s.dequeue + Cap(s)
    ensures Slot(s.mask, p) == Slot(s.mask, s.threads[t].pos)
    ensures (Writes(s.threads[t], p) && p < s.queue)
         || (Drains(s.threads[t], s.threads[t].pos) && p == s.threads[t].pos + Cap(s) && s.queue <= p)
  {
    var pc := s.threads[t];
    assert PcOk(s, pc);
    if pc.PutWrite? || pc.PutPublish? {
      p := pc.pos;
    } else {
      p := pc.pos + Cap(s);
      SlotsDistinct(s.mask, pc.pos);
    }
  }

  lemma RunSlotExclusive<Item>(mask: nat, threads: nat, sched: Schedule<Item>, i: nat, t: nat, u: nat)
    requires GoodMask(mask) && 1 <= mask && i <= |sched|
    requires Small(After(Init<Item>(mask, threads), sched, |sched|))
    requires t < threads && u < threads && t != u
    ensures var s := After(Init<Item>(mask, threads), sched, i);
            && |s.threads| == threads
            && (InWindow(s.threads[t]) && InWindow(s.threads[u]) ==>
                  Slot(mask, s.threads[t].pos) != Slot(mask, s.threads[u].pos))
  {
    var s0 := Init<Item>(mask, threads);
    InitInv<Item>(mask, threads);
    ReachableInv(s0, sched, i);
    PutsGrow(s0, sched, i, i);
    var s := After(s0, sched, i);
    if InWindow(s.threads[t]) && InWindow(s.threads[u]) {
      SlotExclusive(s, t, u);
    }
  }
}
