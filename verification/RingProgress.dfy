/** Conservation, progress and limits of the ring protocol. */
module RingProgress {
  import opened Options
  import opened Words
  import opened RingProtocol
  import opened RingTheorems

  // ---------------------------------------------------------------- who holds a ticket

  predicate HasWriter<Item>(s: State<Item>, p: nat) {
    exists t: nat :: t < |s.threads| && Writes(s.threads[t], p)
  }

  predicate HasDrainer<Item>(s: State<Item>, p: nat) {
    exists t: nat :: t < |s.threads| && Drains(s.threads[t], p)
  }

  /** Every claimed ticket that is not published has its producer, every consumed ticket is
      delivered or has its consumer, and delivered tickets have left their slot recycled. */
  ghost predicate Owned<Item>(s: State<Item>)
    requires Counters(s)
  {
    && (forall p: nat {:trigger HasWriter(s, p)} {:trigger NodeAt(s, p)} ::
          s.dequeue <= p < s.queue && NodeAt(s, p).position == p ==> HasWriter(s, p))
    && (forall p: nat {:trigger HasDrainer(s, p)} {:trigger p in s.delivered} ::
          p < s.dequeue ==> p in s.delivered || HasDrainer(s, p))
    && (forall p: nat {:trigger p in s.delivered} ::
          p in s.delivered && s.queue <= p + Cap(s) ==> NodeAt(s, p).position == p + Cap(s))
  }

  lemma InitOwned<Item>(mask: nat, n: nat)
    requires GoodMask(mask) && 1 <= mask
    ensures Counters(Init<Item>(mask, n)) && Owned(Init<Item>(mask, n))
  {
  }

  /** A step of thread t that keeps the counters, the nodes and t's claims. */
  lemma OwnedFrame<Item>(s: State<Item>, s': State<Item>, t: nat, pc: Pc<Item>)
    requires Counters(s) && Counters(s') && Owned(s) && t < |s.threads|
    requires s' == s.(threads := s.threads[t := pc], disposed := s'.disposed)
    requires forall p: nat :: Writes(s.threads[t], p) ==> Writes(pc, p)
    requires forall p: nat :: Drains(s.threads[t], p) ==> Drains(pc, p)
    ensures Owned(s')
  {
    HoldersFrame(s, s', t, pc);
    forall p: nat | s'.dequeue <= p < s'.queue && NodeAt(s', p).position == p ensures HasWriter(s', p) {
      assert NodeAt(s, p).position == p;
    }
    forall p: nat | p < s'.dequeue ensures p in s'.delivered || HasDrainer(s', p) {
      assert p in s.delivered || HasDrainer(s, p);
    }
    forall p: nat | p in s'.delivered && s'.queue <= p + Cap(s')
      ensures NodeAt(s', p).position == p + Cap(s')
    {
      assert NodeAt(s, p).position == p + Cap(s);
    }
  }

  /** Claims of the other threads, and those t keeps, are still there. */
  lemma HoldersFrame<Item>(s: State<Item>, s': State<Item>, t: nat, pc: Pc<Item>)
    requires t < |s.threads| && s'.threads == s.threads[t := pc]
    ensures forall p: nat :: HasWriter(s, p) && (Writes(s.threads[t], p) ==> Writes(pc, p)) ==> HasWriter(s', p)
    ensures forall p: nat :: HasDrainer(s, p) && (Drains(s.threads[t], p) ==> Drains(pc, p)) ==> HasDrainer(s', p)
    ensures forall p: nat :: Writes(pc, p) ==> HasWriter(s', p)
    ensures forall p: nat :: Drains(pc, p) ==> HasDrainer(s', p)
  {
    forall p: nat | HasWriter(s, p) && (Writes(s.threads[t], p) ==> Writes(pc, p)) ensures HasWriter(s', p) {
      var u: nat :| u < |s.threads| && Writes(s.threads[u], p);
      assert Writes(s'.threads[u], p);
    }
    forall p: nat | HasDrainer(s, p) && (Drains(s.threads[t], p) ==> Drains(pc, p)) ensures HasDrainer(s', p) {
      var u: nat :| u < |s.threads| && Drains(s.threads[u], p);
      assert Drains(s'.threads[u], p);
    }
    assert s'.threads[t] == pc;
  }

  lemma PutClaimOwned<Item>(s: State<Item>, t: nat, item: Item)
    requires Counters(s) && Owned(s) && t < |s.threads| && !InWindow(s.threads[t])
    requires Counters(PutClaim(s, t, item, s.queue))
    ensures Owned(PutClaim(s, t, item, s.queue))
  {
    var s' := PutClaim(s, t, item, s.queue);
    HoldersFrame(s, s', t, PutWrite(item, s.queue));
    forall p: nat | s'.dequeue <= p < s'.queue && NodeAt(s', p).position == p ensures HasWriter(s', p) {
      if p < s.queue { assert NodeAt(s, p).position == p; } else { assert Writes(PutWrite(item, s.queue), p); }
    }
    forall p: nat | p < s'.dequeue ensures p in s'.delivered || HasDrainer(s', p) {
      assert p in s.delivered || HasDrainer(s, p);
    }
    forall p: nat | p in s'.delivered && s'.queue <= p + Cap(s')
      ensures NodeAt(s', p).position == p + Cap(s')
    {
      assert NodeAt(s, p).position == p + Cap(s);
    }
  }

  lemma GetClaimOwned<Item>(s: State<Item>, t: nat)
    requires Counters(s) && Owned(s) && t < |s.threads| && !InWindow(s.threads[t])
    requires Counters(GetClaim(s, t, s.dequeue))
    ensures Owned(GetClaim(s, t, s.dequeue))
  {
    var s' := GetClaim(s, t, s.dequeue);
    HoldersFrame(s, s', t, GetRead(s.dequeue));
    forall p: nat | s'.dequeue <= p < s'.queue && NodeAt(s', p).position == p ensures HasWriter(s', p) {
      assert NodeAt(s, p).position == p;
    }
    forall p: nat | p < s'.dequeue ensures p in s'.delivered || HasDrainer(s', p) {
      if p < s.dequeue { assert p in s.delivered || HasDrainer(s, p); }
      else { assert HasDrainer(s', p); }
    }
    forall p: nat | p in s'.delivered && s'.queue <= p + Cap(s')
      ensures NodeAt(s', p).position == p + Cap(s')
    {
      assert NodeAt(s, p).position == p + Cap(s);
    }
  }

  /** Changing the node of a window ticket, other than by publishing or recycling it. */
  lemma NodeOwned<Item>(s: State<Item>, t: nat, pos: nat, n: Node<Item>, pc: Pc<Item>)
    requires Inv(s) && Owned(s) && t < |s.threads|
    requires s.dequeue <= pos < s.dequeue + Cap(s)
    requires forall p: nat :: Writes(s.threads[t], p) ==> p == pos && (Writes(pc, p) || n.position != p)
    requires forall p: nat :: Drains(s.threads[t], p) ==> Drains(pc, p)
    requires s.queue <= pos ==> pos < Cap(s) || pos - Cap(s) !in s.delivered
    requires pos < s.queue && n.position == pos ==> HasWriter(s, pos) && Writes(pc, pos)
    ensures Owned(Goto(SetNode(s, pos, n), t, pc))
  {
    var s' := Goto(SetNode(s, pos, n), t, pc);
    HoldersFrame(s, s', t, pc);
    OtherNodes(s, pos, n);
    forall p: nat | s'.dequeue <= p < s'.queue && NodeAt(s', p).position == p ensures HasWriter(s', p) {
      if p != pos { assert NodeAt(SetNode(s, pos, n), p) == NodeAt(s, p); }
    }
    forall p: nat | p < s'.dequeue ensures p in s'.delivered || HasDrainer(s', p) {
      assert p in s.delivered || HasDrainer(s, p);
    }
    forall p: nat | p in s'.delivered && s'.queue <= p + Cap(s')
      ensures NodeAt(s', p).position == p + Cap(s')
    {
      assert NodeAt(s, p).position == p + Cap(s) && p < s.dequeue;
      DrainedFrame(s, pos, n, p);
    }
  }

  lemma RecycleOwned<Item>(s: State<Item>, t: nat, a: Action<Item>)
    requires Inv(s) && Owned(s) && t < |s.threads| && s.threads[t].GetRecycle?
    ensures Counters(Step(s, t, a)) && Owned(Step(s, t, a))
  {
    var pos := s.threads[t].pos;
    var n := Node(pos + Cap(s), NodeAt(s, pos).data);
    assert PcOk(s, s.threads[t]);
    assert Inc(pos + s.mask) == pos + Cap(s);
    var s' := Goto(SetNode(s.(delivered := s.delivered[pos := s.threads[t].data]), pos, n), t, Idle(Taken(s.threads[t].data)));
    assert Step(s, t, a) == s';
    RecycleNodes(s, t, pos, n, s');
    HoldersFrame(s, s', t, s'.threads[t]);
    forall p: nat | p < s'.dequeue ensures p in s'.delivered || HasDrainer(s', p) {
      assert p in s.delivered || HasDrainer(s, p);
    }
  }

  lemma RecycleNodes<Item>(s: State<Item>, t: nat, pos: nat, n: Node<Item>, s': State<Item>)
    requires Counters(s) && DeliveredOk(s) && Owned(s) && DrainerOk(s, pos) && n.position == pos + Cap(s)
    requires t < |s.threads| && s.threads[t].GetRecycle?
    requires |s'.threads| == |s.threads| && s'.threads == s.threads[t := s'.threads[t]]
    requires s'.mask == s.mask && s'.nodes == SetNode(s, pos, n).nodes && s'.queue == s.queue && s'.dequeue == s.dequeue
    requires s'.delivered.Keys == s.delivered.Keys + {pos}
    ensures Sized(s')
    ensures forall p: nat :: s.dequeue <= p < s.queue && NodeAt(s', p).position == p ==> HasWriter(s', p)
    ensures forall p: nat :: p in s'.delivered && s.queue <= p + Cap(s) ==> NodeAt(s', p).position == p + Cap(s)
  {
    SameSlot(s, pos);
    OtherNodes(s, pos + Cap(s), n);
    HoldersFrame(s, s', t, s'.threads[t]);
    forall p: nat | s.dequeue <= p < s.queue && NodeAt(s', p).position == p ensures HasWriter(s', p) {
      assert NodeAt(SetNode(s, pos, n), p) == NodeAt(s, p);
    }
    forall p: nat | p in s'.delivered && s.queue <= p + Cap(s) ensures NodeAt(s', p).position == p + Cap(s) {
      if p != pos {
        assert NodeAt(s, p).position == p + Cap(s) && p < s.dequeue;
        DrainedFrame(s, pos + Cap(s), n, p);
      }
    }
  }

  lemma StepOwned<Item>(s: State<Item>, t: nat, a: Action<Item>)
    requires Inv(s) && Owned(s) && Inv(Step(s, t, a))
    ensures Owned(Step(s, t, a))
  {
    if t < |s.threads| {
      var pc := s.threads[t];
      if Claims(s, t) {
        if pc.PutCas? { PutClaimOwned(s, t, pc.item); } else { GetClaimOwned(s, t); }
      } else if pc.PutWrite? {
        WriteOwned(s, t, a);
      } else if pc.PutPublish? {
        PublishOwned(s, t, a);
      } else if pc.GetClear? {
        ClearOwned(s, t, a);
      } else if pc.GetRecycle? {
        RecycleOwned(s, t, a);
      } else {
        MoveOwned(s, t, a);
      }
    }
  }

  lemma MoveOwned<Item>(s: State<Item>, t: nat, a: Action<Item>)
    requires Inv(s) && Owned(s) && Counters(Step(s, t, a)) && t < |s.threads| && !Claims(s, t)
    requires !InWindow(s.threads[t]) || s.threads[t].GetRead?
    ensures Owned(Step(s, t, a))
  {
    hide Tickets, Exclusive, DeliveredOk;
    var s' := Step(s, t, a);
    assert s' == s.(threads := s.threads[t := s'.threads[t]], disposed := s'.disposed);
    OwnedFrame(s, s', t, s'.threads[t]);
  }

  lemma WriteOwned<Item>(s: State<Item>, t: nat, a: Action<Item>)
    requires Inv(s) && Owned(s) && t < |s.threads| && s.threads[t].PutWrite?
    ensures Owned(Step(s, t, a))
  {
    hide Tickets, Exclusive, DeliveredOk;
    var pc := s.threads[t];
    assert PcOk(s, pc);
    assert Writes(pc, pc.pos);
    NodeOwned(s, t, pc.pos, NodeAt(s, pc.pos).(data := Some(pc.item)), PutPublish(pc.item, pc.pos));
  }

  lemma PublishOwned<Item>(s: State<Item>, t: nat, a: Action<Item>)
    requires Inv(s) && Owned(s) && t < |s.threads| && s.threads[t].PutPublish?
    ensures Owned(Step(s, t, a))
  {
    hide Tickets, Exclusive, DeliveredOk;
    var pos := s.threads[t].pos;
    assert PcOk(s, s.threads[t]);
    var n := NodeAt(s, pos).(position := pos + 1);
    NodeOwned(s, t, pos, n, Idle(Stored));
    assert Step(s, t, a) == Goto(SetNode(s, pos, n), t, Idle(Stored));
  }

  lemma DeliveredNotDrained<Item>(s: State<Item>, t: nat, p: nat)
    requires Inv(s) && t < |s.threads| && p in s.delivered
    ensures !Drains(s.threads[t], p)
  {
  }

  lemma ClearOwned<Item>(s: State<Item>, t: nat, a: Action<Item>)
    requires Inv(s) && Owned(s) && t < |s.threads| && s.threads[t].GetClear?
    ensures Owned(Step(s, t, a))
  {
    hide Tickets, Exclusive, DeliveredOk;
    var pc := s.threads[t];
    var p := pc.pos + Cap(s);
    assert PcOk(s, pc);
    assert Drains(pc, pc.pos);
    var n := NodeAt(s, pc.pos).(data := None);
    var next := GetRecycle(pc.pos, pc.data);
    SameSlot(s, pc.pos);
    assert Step(s, t, a) == Goto(SetNode(s, p, n), t, next);
    if pc.pos in s.delivered { DeliveredNotDrained(s, t, pc.pos); }
    NodeOwned(s, t, p, n, next);
  }

  lemma {:induction false} ReachableOwned<Item>(s: State<Item>, sched: Schedule<Item>, n: nat)
    requires Inv(s) && Owned(s) && n <= |sched| && Small(After(s, sched, |sched|))
    ensures Inv(After(s, sched, n)) && Owned(After(s, sched, n))
    decreases n
  {
    hide Step;
    ReachableInv(s, sched, n);
    if n > 0 {
      ReachableOwned(s, sched, n - 1);
      StepOwned(After(s, sched, n - 1), sched[n - 1].0, sched[n - 1].1);
    }
  }

  // ---------------------------------------------------------------- quiescent rings

  /** No thread is between a claim and the position store that ends it. */
  predicate Quiescent<Item>(s: State<Item>) {
    forall t: nat :: t < |s.threads| ==> !InWindow(s.threads[t])
  }

  /** A quiescent ring holds exactly its contents: published slots for the claimed tickets,
      cleared free slots for the others. */
  lemma Canonical<Item>(s: State<Item>, p: nat)
    requires Inv(s) && Owned(s) && Quiescent(s) && s.dequeue <= p < s.dequeue + Cap(s)
    ensures NodeAt(s, p) == if p < s.queue then Node(p + 1, Some(s.puts[p])) else Node(p, None)
  {
    if p < s.queue {
      assert ClaimedTicket(s, p) && !HasWriter(s, p);
    } else {
      assert OpenTicket(s, p);
      if p >= Cap(s) {
        var c := p - Cap(s);
        SameSlot(s, c);
        assert c in s.delivered || HasDrainer(s, c);
      }
    }
  }

  /** Conservation: whenever no thread is inside a claim window, every item ever put has been
      delivered exactly once, in ticket order, or is still in the ring. */
  lemma NothingLost<Item>(mask: nat, threads: nat, sched: Schedule<Item>, i: nat)
    requires GoodMask(mask) && 1 <= mask && i <= |sched|
    requires Small(After(Init<Item>(mask, threads), sched, |sched|))
    requires Quiescent(After(Init<Item>(mask, threads), sched, i))
    ensures var s := After(Init<Item>(mask, threads), sched, i);
            && s.dequeue <= |s.puts|
            && (forall p: nat :: p in s.delivered <==> p < s.dequeue)
            && (forall p: nat :: p < s.dequeue ==> s.delivered[p] == Some(s.puts[p]))
            && (forall p: nat :: s.dequeue <= p < |s.puts| ==> NodeAt(s, p) == Node(p + 1, Some(s.puts[p])))
            && (forall p: nat :: |s.puts| <= p < s.dequeue + Cap(s) ==> NodeAt(s, p) == Node(p, None))
  {
    var s0 := Init<Item>(mask, threads);
    InitInv<Item>(mask, threads);
    InitOwned<Item>(mask, threads);
    ReachableOwned(s0, sched, i);
    var s := After(s0, sched, i);
    forall p: nat | p < s.dequeue ensures p in s.delivered {
      assert p in s.delivered || HasDrainer(s, p);
    }
    forall p: nat | s.dequeue <= p < s.dequeue + Cap(s)
      ensures NodeAt(s, p) == if p < s.queue then Node(p + 1, Some(s.puts[p])) else Node(p, None)
    {
      Canonical(s, p);
    }
  }

  // ---------------------------------------------------------------- solo progress

  /** Consecutive states of a run in which only thread t moves, and no timeout expires. */
  ghost predicate Solo<Item>(run: seq<State<Item>>, t: nat) {
    && run != []
    && (forall i: nat :: i < |run| ==> Sized(run[i]))
    && (forall i: nat :: i + 1 < |run| ==> run[i + 1] == Step(run[i], t, Go(false)))
  }

  function Last<T>(s: seq<T>): T
    requires s != []
  {
    s[|s| - 1]
  }

  lemma SoloStep<Item>(run: seq<State<Item>>, t: nat, next: State<Item>)
    requires Solo(run, t) && next == Step(Last(run), t, Go(false))
    ensures Solo(run + [next], t)
  {
  }

  lemma SoloJoin<Item>(first: seq<State<Item>>, second: seq<State<Item>>, t: nat)
    requires Solo(first, t) && Solo(second, t) && second[0] == Last(first)
    ensures Solo(first + second[1..], t) && Last(first + second[1..]) == Last(second)
  {
    var run := first + second[1..];
    forall i: nat | i + 1 < |run| ensures run[i + 1] == Step(run[i], t, Go(false)) {
      if i + 1 >= |first| {
        var j := i + 1 - |first|;
        assert run[i] == second[j] && run[i + 1] == second[j + 1];
      }
    }
  }

  lemma PutStale<Item>(s: State<Item>, t: nat, item: Item, pos: nat) returns (run: seq<State<Item>>)
    requires Counters(s) && Tickets(s) && !s.disposed && t < |s.threads|
    requires s.threads[t] == PutCheck(item, false, pos) && pos <= s.queue && NodeAt(s, pos).position != pos
    ensures Solo(run, t) && |run| == 4 && run[0] == s && Last(run) == Goto(s, t, PutCheck(item, false, s.queue))
  {
    PositionsSmall(s, pos);
    WordDifference(NodeAt(s, pos).position, pos);
    var s1 := Goto(s, t, PutLoad(item, false, pos));
    var s2 := Goto(s, t, PutReload(item, false));
    var s3 := Goto(s, t, PutCheck(item, false, s.queue));
    SoloStep([s], t, s1);
    assert NodeAt(s1, pos) == NodeAt(s, pos);
    SoloStep([s, s1], t, s2);
    SoloStep([s, s1, s2], t, s3);
    run := [s, s1, s2, s3];
  }

  lemma PutCurrent<Item>(s: State<Item>, t: nat, item: Item) returns (run: seq<State<Item>>)
    requires Counters(s) && !s.disposed && t < |s.threads| && s.threads[t] == PutCheck(item, false, s.queue)
    requires NodeAt(s, s.queue).position == s.queue
    ensures Solo(run, t) && |run| == 6 && run[0] == s
    ensures Last(run).threads == s.threads[t := Idle(Stored)]
    ensures Last(run).puts == s.puts + [item] && Last(run).dequeue == s.dequeue
  {
    var q := s.queue;
    var s1 := Goto(s, t, PutLoad(item, false, q));
    var s2 := Goto(s, t, PutCas(item, false, q));
    SoloStep([s], t, s1);
    assert NodeAt(s1, q) == NodeAt(s, q);
    SoloStep([s, s1], t, s2);
    var s3 := PutClaim(s, t, item, q);
    SoloStep([s, s1, s2], t, s3);
    var s4, s5 := PutTail(s3, t, item, q);
    SoloStep([s, s1, s2, s3], t, s4);
    SoloStep([s, s1, s2, s3, s4], t, s5);
    run := [s, s1, s2, s3, s4, s5];
  }

  lemma PutTail<Item>(s: State<Item>, t: nat, item: Item, pos: nat) returns (s1: State<Item>, s2: State<Item>)
    requires Sized(s) && t < |s.threads| && s.threads[t] == PutWrite(item, pos)
    ensures s1 == Step(s, t, Go(false)) && s2 == Step(s1, t, Go(false))
    ensures s2.threads == s.threads[t := Idle(Stored)] && s2.puts == s.puts && s2.dequeue == s.dequeue
  {
    s1 := Step(s, t, Go(false));
    s2 := Step(s1, t, Go(false));
    assert s2.threads == s.threads[t := Idle(Stored)];
  }

  /** The position of a slot is never that of a ticket before the window, published or free. */
  lemma StalePosition<Item>(s: State<Item>, pos: nat)
    requires Inv(s) && Owned(s) && Quiescent(s) && pos <= s.queue
    ensures pos < s.queue ==> NodeAt(s, pos).position != pos
    ensures pos < s.dequeue ==> NodeAt(s, pos).position != pos + 1
  {
    var p := WindowTicket(s, pos);
    Canonical(s, p);
  }

  /** Solo progress of a blocking put: alone in a quiescent ring that is neither disposed nor
      full, it succeeds within two turns of its loop, however stale its ticket is. */
  lemma SoloPut<Item>(s: State<Item>, t: nat) returns (run: seq<State<Item>>)
    requires Inv(s) && Owned(s) && Quiescent(s) && !s.disposed && t < |s.threads|
    requires s.threads[t].PutCheck? && !s.threads[t].offer && s.queue < s.dequeue + Cap(s)
    ensures Solo(run, t) && |run| <= 1 + 8 && run[0] == s
    ensures Last(run).threads == s.threads[t := Idle(Stored)]
    ensures Last(run).puts == s.puts + [s.threads[t].item] && Last(run).dequeue == s.dequeue
  {
    var item := s.threads[t].item;
    var pos := s.threads[t].pos;
    assert PcOk(s, s.threads[t]);
    Canonical(s, s.queue);
    if pos == s.queue {
      run := PutCurrent(s, t, item);
    } else {
      StalePosition(s, pos);
      var reload := PutStale(s, t, item, pos);
      var s' := Goto(s, t, PutCheck(item, false, s.queue));
      assert NodeAt(s', s.queue) == NodeAt(s, s.queue);
      var rest := PutCurrent(s', t, item);
      SoloJoin(reload, rest, t);
      run := reload + rest[1..];
    }
  }

  lemma GetStale<Item>(s: State<Item>, t: nat, timed: bool, pos: nat) returns (run: seq<State<Item>>)
    requires Counters(s) && Tickets(s) && !s.disposed && t < |s.threads|
    requires s.threads[t] == GetCheck(timed, pos) && pos <= s.dequeue && NodeAt(s, pos).position != pos + 1
    ensures Solo(run, t) && |run| == 4 && run[0] == s && Last(run) == Goto(s, t, GetCheck(timed, s.dequeue))
  {
    PositionsSmall(s, pos);
    GetStaleSteps(s, t, timed, pos);
    hide Step, Tickets;
    var s1 := Goto(s, t, GetLoad(timed, pos));
    var s2 := Goto(s, t, GetReload(timed));
    SoloStep([s], t, s1);
    SoloStep([s, s1], t, s2);
    run := [s, s1, s2] + [Goto(s, t, GetCheck(timed, s.dequeue))];
    SoloStep([s, s1, s2], t, Goto(s, t, GetCheck(timed, s.dequeue)));
  }

  lemma GetStaleSteps<Item>(s: State<Item>, t: nat, timed: bool, pos: nat)
    requires Sized(s) && !s.disposed && t < |s.threads| && s.threads[t] == GetCheck(timed, pos)
    requires pos + 1 < WORD && NodeAt(s, pos).position < WORD && NodeAt(s, pos).position != pos + 1
    ensures var s1, s2 := Goto(s, t, GetLoad(timed, pos)), Goto(s, t, GetReload(timed));
            && Step(s, t, Go(false)) == s1 && Step(s1, t, Go(false)) == s2
            && Step(s2, t, Go(false)) == Goto(s, t, GetCheck(timed, s.dequeue))
  {
    WordDifference(NodeAt(s, pos).position, pos + 1);
    assert NodeAt(Goto(s, t, GetLoad(timed, pos)), pos) == NodeAt(s, pos);
  }

  lemma GetCurrent<Item>(s: State<Item>, t: nat, timed: bool, x: Item) returns (run: seq<State<Item>>)
    requires Counters(s) && !s.disposed && t < |s.threads| && s.threads[t] == GetCheck(timed, s.dequeue)
    requires NodeAt(s, s.dequeue) == Node(s.dequeue + 1, Some(x))
    ensures Solo(run, t) && |run| == 7 && run[0] == s
    ensures Last(run).threads == s.threads[t := Idle(Taken(Some(x)))]
    ensures Last(run).puts == s.puts && Last(run).dequeue == s.dequeue + 1
  {
    var claim := GetHead(s, t, timed);
    var drain := GetTail(Last(claim), t, s.dequeue, x);
    SoloJoin(claim, drain, t);
    run := claim + drain[1..];
  }

  lemma GetHead<Item>(s: State<Item>, t: nat, timed: bool) returns (run: seq<State<Item>>)
    requires Counters(s) && !s.disposed && t < |s.threads| && s.threads[t] == GetCheck(timed, s.dequeue)
    requires NodeAt(s, s.dequeue).position == s.dequeue + 1
    ensures Solo(run, t) && |run| == 4 && run[0] == s
    ensures Last(run) == s.(threads := s.threads[t := GetRead(s.dequeue)], dequeue := s.dequeue + 1)
  {
    var d := s.dequeue;
    var s1 := Goto(s, t, GetLoad(timed, d));
    var s2 := Goto(s, t, GetCas(timed, d));
    SoloStep([s], t, s1);
    assert NodeAt(s1, d) == NodeAt(s, d);
    SoloStep([s, s1], t, s2);
    var s3 := GetClaim(s, t, d);
    SoloStep([s, s1, s2], t, s3);
    run := [s, s1, s2, s3];
  }

  lemma GetTail<Item>(s: State<Item>, t: nat, d: nat, x: Item) returns (run: seq<State<Item>>)
    requires Sized(s) && t < |s.threads| && s.threads[t] == GetRead(d) && NodeAt(s, d).data == Some(x)
    ensures Solo(run, t) && |run| == 4 && run[0] == s
    ensures Last(run).threads == s.threads[t := Idle(Taken(Some(x)))]
    ensures Last(run).puts == s.puts && Last(run).dequeue == s.dequeue
  {
    var s1 := Goto(s, t, GetClear(d, Some(x)));
    SoloStep([s], t, s1);
    var s2 := Step(s1, t, Go(false));
    SoloStep([s, s1], t, s2);
    assert s2.threads == s.threads[t := GetRecycle(d, Some(x))] && s2.puts == s.puts && s2.dequeue == s.dequeue;
    var s3 := RecycleTail(s2, t, d, x);
    SoloStep([s, s1, s2], t, s3);
    run := [s, s1, s2, s3];
  }

  lemma RecycleTail<Item>(s: State<Item>, t: nat, d: nat, x: Item) returns (s1: State<Item>)
    requires Sized(s) && t < |s.threads| && s.threads[t] == GetRecycle(d, Some(x))
    ensures s1 == Step(s, t, Go(false))
    ensures s1.threads == s.threads[t := Idle(Taken(Some(x)))] && s1.puts == s.puts && s1.dequeue == s.dequeue
  {
    s1 := Step(s, t, Go(false));
  }

  /** Solo progress of a poll: alone in a quiescent ring that holds something, it returns the
      oldest item within two turns of its loop. */
  lemma SoloGet<Item>(s: State<Item>, t: nat) returns (run: seq<State<Item>>)
    requires Inv(s) && Owned(s) && Quiescent(s) && !s.disposed && t < |s.threads|
    requires s.threads[t].GetCheck? && s.dequeue < s.queue
    ensures Solo(run, t) && |run| <= 1 + 9 && run[0] == s
    ensures Last(run).threads == s.threads[t := Idle(Taken(Some(Contents(s)[0])))]
    ensures Last(run).puts == s.puts && Last(run).dequeue == s.dequeue + 1
  {
    var timed := s.threads[t].timed;
    var pos := s.threads[t].pos;
    assert PcOk(s, s.threads[t]);
    Canonical(s, s.dequeue);
    if pos == s.dequeue {
      run := GetCurrent(s, t, timed, s.puts[s.dequeue]);
    } else {
      StalePosition(s, pos);
      var reload := GetStale(s, t, timed, pos);
      var s' := Goto(s, t, GetCheck(timed, s.dequeue));
      assert NodeAt(s', s.dequeue) == NodeAt(s, s.dequeue);
      var rest := GetCurrent(s', t, timed, s.puts[s.dequeue]);
      SoloJoin(reload, rest, t);
      run := reload + rest[1..];
    }
  }
}
