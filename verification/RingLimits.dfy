/** Where the ring's guarantees end: the one-slot ring, disposal, and Len. */
module RingLimits {
  import opened Options
  import opened Words
  import opened RingProtocol
  import opened RingTheorems

  // ---------------------------------------------------------------- capacity one

  /** Every schedule of any number of threads is step for step a bounded FIFO run. */
  ghost predicate AlwaysFifo<Item(!new)>(mask: nat) {
    forall threads: nat, sched: Schedule<Item>, i: nat
      {:trigger After(Init<Item>(mask, threads), sched, i + 1)} ::
      IsPow2(mask + 1) && i < |sched| && Small(After(Init<Item>(mask, threads), sched, |sched|)) ==>
      Refines(After(Init<Item>(mask, threads), sched, i), sched[i].0, After(Init<Item>(mask, threads), sched, i + 1))
  }

  /** Two puts run one after the other by one thread. */
  function TwoPuts<Item>(x: Item): Schedule<Item> {
    [(0, StartPut(x, false)), (0, Go(false)), (0, Go(false)), (0, Go(false)), (0, Go(false)), (0, Go(false)),
     (0, StartPut(x, false)), (0, Go(false)), (0, Go(false)), (0, Go(false))]
  }

  function OneSlot<Item>(q: nat, n: Node<Item>, pc: Pc<Item>, puts: seq<Item>): State<Item> {
    State(0, q, 0, false, [n], [pc], puts, map[])
  }

  /** The states those two puts go through: the second put claims ticket 1 while the only slot
      still holds the item of ticket 0, since "full at ticket 0" and "free at ticket 1" are the
      same position. */
  function Overrun<Item>(x: Item): seq<State<Item>> {
    var free, full := Node(0, None), Node(1, Some(x));
    [OneSlot(0, free, Idle(NotRun), []),
     OneSlot(0, free, PutCheck(x, false, 0), []),
     OneSlot(0, free, PutLoad(x, false, 0), []),
     OneSlot(0, free, PutCas(x, false, 0), []),
     OneSlot(1, free, PutWrite(x, 0), [x]),
     OneSlot(1, Node(0, Some(x)), PutPublish(x, 0), [x]),
     OneSlot(1, full, Idle(Stored), [x]),
     OneSlot(1, full, PutCheck(x, false, 1), [x]),
     OneSlot(1, full, PutLoad(x, false, 1), [x]),
     OneSlot(1, full, PutCas(x, false, 1), [x]),
     OneSlot(2, full, PutWrite(x, 1), [x, x])]
  }

  /** One step of a thread of the one-slot ring, whatever the thread is doing. */
  lemma OneSlotStep<Item>(q: nat, n: Node<Item>, pc: Pc<Item>, puts: seq<Item>, a: Action<Item>)
    requires IsPow2(1) && q + 1 < WORD
    ensures var s := OneSlot(q, n, pc, puts);
            match pc
            case Idle(_) => a.StartPut? ==> Step(s, 0, a) == OneSlot(q, n, PutCheck(a.item, a.offer, q), puts)
            case PutCheck(x, o, p) => Step(s, 0, a) == OneSlot(q, n, PutLoad(x, o, p), puts)
            case PutLoad(x, o, p) =>
              n.position == p ==> Step(s, 0, a) == OneSlot(q, n, PutCas(x, o, p), puts)
            case PutCas(x, o, p) => q == p ==> Step(s, 0, a) == OneSlot(q + 1, n, PutWrite(x, p), puts + [x])
            case PutWrite(x, p) => Step(s, 0, a) == OneSlot(q, Node(n.position, Some(x)), PutPublish(x, p), puts)
            case PutPublish(x, p) =>
              p < q ==> Step(s, 0, a) == OneSlot(q, Node(p + 1, n.data), Idle(Stored), puts)
            case _ => true
  {
  }

  lemma OverrunSteps<Item>(x: Item, i: nat)
    requires IsPow2(1) && i < 10
    ensures Overrun(x)[i + 1] == Step(Overrun(x)[i], TwoPuts(x)[i].0, TwoPuts(x)[i].1)
  {
    var s := Overrun(x)[i];
    assert s == OneSlot(s.queue, s.nodes[0], s.threads[0], s.puts);
    OneSlotStep(s.queue, s.nodes[0], s.threads[0], s.puts, TwoPuts(x)[i].1);
  }

  lemma {:induction false} RunIs<Item>(s: State<Item>, sched: Schedule<Item>, run: seq<State<Item>>, n: nat)
    requires Sized(s) && |run| == |sched| + 1 && run[0] == s && n <= |sched|
    requires forall i: nat :: i < |run| ==> Sized(run[i])
    requires forall i: nat :: i < |sched| ==> run[i + 1] == Step(run[i], sched[i].0, sched[i].1)
    ensures After(s, sched, n) == run[n]
    decreases n
  {
    if n > 0 {
      RunIs(s, sched, run, n - 1);
    }
  }

  lemma OneSlotOverruns<Item(!new)>(x: Item)
    ensures !AlwaysFifo<Item>(0)
  {
    assert Pow2(0) == 1;
    var s, c, run := Init<Item>(0, 1), TwoPuts(x), Overrun(x);
    forall i: nat | i < |c| ensures run[i + 1] == Step(run[i], c[i].0, c[i].1) {
      OverrunSteps(x, i);
    }
    var last: nat := |c| - 1;
    RunIs(s, c, run, last);
    RunIs(s, c, run, last + 1);
    NotFifo(x, run[last], run[last + 1]);
    assert !Refines(After(s, c, last), c[last].0, After(s, c, last + 1));
  }

  lemma NotFifo<Item>(x: Item, s: State<Item>, s': State<Item>)
    requires s.mask == 0 && s.dequeue == 0 && s.queue == 1 && |s.puts| == 1 && s.threads == [PutCas(x, false, 1)]
    ensures !Refines(s, 0, s')
  {
  }

  lemma FifoFromTwoSlots<Item(!new)>(mask: nat)
    requires 1 <= mask && mask + 1 < WORD
    ensures AlwaysFifo<Item>(mask)
  {
    forall threads: nat, sched: Schedule<Item>, i: nat
      {:trigger After(Init<Item>(mask, threads), sched, i + 1)}
      | IsPow2(mask + 1) && i < |sched| && Small(After(Init<Item>(mask, threads), sched, |sched|))
      ensures Refines(After(Init<Item>(mask, threads), sched, i), sched[i].0,
                      After(Init<Item>(mask, threads), sched, i + 1))
    {
      RingRefinesFifo(mask, threads, sched, i);
    }
  }

  /** Of all the sizes a caller can ask for, exactly these give a ring that has slots and is a
      bounded FIFO under every schedule. */
  lemma FifoIffTwoSlots<Item(!new)>(size: nat, cap: nat, x: Item)
    requires size < WORD && RoundedUp(size, cap)
    ensures (0 < cap && AlwaysFifo<Item>(cap - 1)) <==> 2 <= size <= 0x8000_0000_0000_0000
  {
    hide AlwaysFifo;
    assert Pow2(0) == 1;
    Pow2Of64();
    if size == 1 {
      assert cap <= Pow2(0);
      OneSlotOverruns(x);
    } else if 2 <= size <= 0x8000_0000_0000_0000 {
      assert cap <= Pow2(63);
      FifoFromTwoSlots<Item>(cap - 1);
    }
  }

  // ---------------------------------------------------------------- disposal

  /** Past the check of the disposed flag and not yet past the compare-and-swap. */
  predicate Armed<Item>(pc: Pc<Item>) {
    pc.PutLoad? || pc.PutCas? || pc.GetLoad? || pc.GetCas?
  }

  function CountArmed<Item>(threads: seq<Pc<Item>>): (n: nat)
    ensures n <= |threads|
  {
    if threads == [] then 0
    else CountArmed(threads[1..]) + (if Armed(threads[0]) then 1 else 0)
  }

  lemma {:induction false} CountUpdate<Item>(threads: seq<Pc<Item>>, t: nat, pc: Pc<Item>)
    requires t < |threads|
    ensures CountArmed(threads[t := pc])
         == CountArmed(threads) - (if Armed(threads[t]) then 1 else 0) + (if Armed(pc) then 1 else 0)
    decreases |threads|
  {
    if t == 0 {
      assert threads[0 := pc][1..] == threads[1..];
    } else {
      CountUpdate(threads[1..], t - 1, pc);
      assert threads[t := pc][1..] == threads[1..][t - 1 := pc];
    }
  }

  /** Only the thread that moves changes, and it changes to the given state. */
  lemma StepMovesOne<Item>(s: State<Item>, t: nat, a: Action<Item>)
    requires Sized(s) && t < |s.threads|
    ensures Step(s, t, a).threads == s.threads[t := Step(s, t, a).threads[t]]
    ensures s.disposed ==> Step(s, t, a).disposed
  {
    hide PutLooked, GetLooked, Slot, Inc;
  }

  /** A disposed ring arms no thread. */
  lemma NeverArms<Item>(s: State<Item>, t: nat, a: Action<Item>)
    requires Sized(s) && t < |s.threads| && s.disposed
    ensures Armed(Step(s, t, a).threads[t]) ==> Armed(s.threads[t])
    ensures Claims(s, t) ==> Armed(s.threads[t]) && !Armed(Step(s, t, a).threads[t])
  {
    hide Slot;
  }

  lemma ClaimTakesOne<Item>(s: State<Item>, t: nat, a: Action<Item>)
    requires Inv(s) && Claims(s, t)
    ensures var s' := Step(s, t, a); |s'.puts| + s'.dequeue == |s.puts| + s.dequeue + 1
  {
    assert PcOk(s, s.threads[t]);
    assert s.dequeue < WORD - 1;
    hide Inv;
  }

  /** A disposed ring never arms a thread, and every claim disarms one. */
  lemma DisposedStep<Item>(s: State<Item>, t: nat, a: Action<Item>)
    requires Inv(s) && Small(Step(s, t, a)) && s.disposed
    ensures var s' := Step(s, t, a);
            && s'.disposed
            && |s'.puts| + s'.dequeue + CountArmed(s'.threads) <= |s.puts| + s.dequeue + CountArmed(s.threads)
  {
    if t < |s.threads| {
      StepMovesOne(s, t, a);
      CountUpdate(s.threads, t, Step(s, t, a).threads[t]);
      NeverArms(s, t, a);
      if Claims(s, t) { ClaimTakesOne(s, t, a); }
      hide Step, Inv, Armed, CountArmed, Claims;
    }
  }

  /** After Dispose at most one more put or get per thread takes effect: those whose thread
      had already looked at the flag. Every other operation fails and changes nothing. */
  lemma {:induction false} DisposeDrains<Item>(s: State<Item>, sched: Schedule<Item>, n: nat)
    requires Inv(s) && s.disposed && n <= |sched| && Small(After(s, sched, |sched|))
    ensures var s' := After(s, sched, n);
            && s'.disposed
            && (|s'.puts| - |s.puts|) + (s'.dequeue - s.dequeue) + CountArmed(s'.threads) <= CountArmed(s.threads)
    decreases n
  {
    hide Step;
    if n > 0 {
      DisposeDrains(s, sched, n - 1);
      ReachableInv(s, sched, n);
      ReachableInv(s, sched, n - 1);
      DisposedStep(After(s, sched, n - 1), sched[n - 1].0, sched[n - 1].1);
    }
  }

  // ---------------------------------------------------------------- Len

  /** The two loads of Len are not one snapshot: what it returns is at most the capacity
      exactly when no more gets were claimed by the second load than puts by the first. */
  lemma LenBounded<Item>(s: State<Item>, t: nat, a: Action<Item>)
    requires Inv(s) && t < |s.threads| && s.threads[t].LenSecond?
    ensures var q := s.threads[t].q;
            exists n: nat :: Step(s, t, a).threads[t] == Idle(Length(n))
                             && (n <= Cap(s) <==> s.dequeue <= q)
                             && (s.dequeue <= q ==> n == q - s.dequeue)
  {
    assert PcOk(s, s.threads[t]);
    var q := s.threads[t].q;
    var n := (q - s.dequeue) % WORD;
    if s.dequeue > q {
      assert n == WORD + q - s.dequeue;
    }
    assert Step(s, t, a).threads[t] == Idle(Length(n));
  }
}
