/** The ring of research/queue/ring.go as an object whose operations run one at a time. */
module RingBuffers {
  import opened Options
  import opened Words
  import RingProtocol

  datatype PutOutcome = Stored | Refused | PutDisposed | PutWaiting
  datatype GetOutcome<+T> = Taken(item: T) | GetDisposed | TimedOut | GetWaiting

  class RingBuffer<T> {
    var queue: nat
    var dequeue: nat
    var disposed: bool
    const mask: nat
    const nodes: array<RingProtocol.Node<T>>

    /** Every item ever put, by ticket. */
    ghost var puts: seq<T>

    /** The object as a state of the protocol with no thread inside an operation. */
    ghost function View(): RingProtocol.State<T>
      reads this, nodes
    {
      RingProtocol.State(mask, queue, dequeue, disposed, nodes[..], [], puts, map[])
    }

    ghost predicate Valid()
      reads this, nodes
    {
      nodes.Length == mask + 1 && Settled(View())
    }

    /** What the ring holds, oldest first. */
    ghost function Contents(): seq<T>
      reads this, nodes
      requires Valid()
    {
      puts[dequeue..]
    }

    /** A ring for `size` items. Only from size 2 on is it usable as a queue; for 0 and beyond
        2^63 the size rounds to 0 and there is no slot at all. */
    constructor (size: nat)
      requires size < WORD
      ensures fresh(nodes) && !disposed && queue == dequeue == 0
      ensures RoundedUp(size, nodes.Length)
      ensures 2 <= size <= 0x8000_0000_0000_0000 ==> Valid() && Contents() == []
      ensures size == 0 || 0x8000_0000_0000_0000 < size ==> nodes.Length == 0 && mask == WORD - 1 && !Valid()
    {
      var cap := RoundUp(size);
      var ns := new RingProtocol.Node<T>[cap](i => RingProtocol.Node(0, None));
      for i := 0 to cap
        invariant forall j :: 0 <= j < i ==> ns[j] == RingProtocol.Node(j, None)
      {
        ns[i] := RingProtocol.Node(i, None);
      }
      queue, dequeue, disposed := 0, 0, false;
      mask, nodes := (cap - 1) % WORD, ns;
      puts := [];
      new;
      hide LeastPow2AtLeast;
      if 1 <= size <= 0x8000_0000_0000_0000 { BelowWord(size, cap); }
      if 2 <= size <= 0x8000_0000_0000_0000 {
        forall p: nat | p < cap ensures nodes[Slot(mask, p)] == SettledNode(View(), p) {
          SlotIsMod(mask, p);
          ModUnique(p, cap, 0, p);
        }
      }
    }

    /** The claim of the next put ticket and the writes that follow it. */
    method Store(item: T)
      requires Valid() && |Contents()| < nodes.Length && queue + nodes.Length + 1 < WORD
      modifies this`queue, this`puts, nodes
      ensures Valid() && Contents() == old(Contents()) + [item] && queue == old(queue) + 1
    {
      ghost var s := View();
      StoreSettled(s, item);
      var pos := queue;
      var i := Slot(mask, pos);
      queue := RingProtocol.Inc(pos);
      puts := puts + [item];
      nodes[i] := nodes[i].(data := Some(item));
      nodes[i] := nodes[i].(position := RingProtocol.Inc(pos));
      assert View() == RingProtocol.SetNode(s.(queue := s.queue + 1, puts := s.puts + [item]), s.queue,
                                            RingProtocol.Node(s.queue + 1, Some(item)));
    }

    /** The claim of the next get ticket, and the read, clear and recycling that follow it. */
    method Take() returns (x: T)
      requires Valid() && Contents() != []
      modifies this`dequeue, nodes
      ensures Valid() && old(Contents()) == [x] + Contents()
    {
      ghost var s := View();
      TakeSettled(s);
      FullAt(s, dequeue);
      var pos := dequeue;
      var i := Slot(mask, pos);
      dequeue := RingProtocol.Inc(pos);
      var data := nodes[i].data;
      nodes[i] := nodes[i].(data := None);
      nodes[i] := nodes[i].(position := (pos + mask + 1) % WORD);
      assert View() == RingProtocol.SetNode(s.(dequeue := s.dequeue + 1), s.dequeue,
                                            RingProtocol.Node(s.dequeue + nodes.Length, None));
      x := data.value;
    }

    /** The put loop from a ticket `pos` that may be stale, watched for `spins` turns. A put
        that is not an offer and finds the ring full keeps turning. */
    method PutFrom(item: T, offer: bool, start: nat, spins: nat) returns (r: PutOutcome)
      requires Valid() && start <= queue && queue + nodes.Length + 1 < WORD
      modifies this, nodes
      ensures Valid() && disposed == old(disposed) && dequeue == old(dequeue)
      ensures Contents() == if r == Stored then old(Contents()) + [item] else old(Contents())
      ensures r != Stored ==> nodes[..] == old(nodes[..]) && puts == old(puts)
      ensures r == Stored ==> !disposed && |old(Contents())| < nodes.Length
      ensures r == PutDisposed <==> disposed && 0 < spins
      ensures !disposed && |old(Contents())| < nodes.Length && !offer && 2 <= spins ==> r == Stored
      ensures !disposed && |old(Contents())| < nodes.Length && start == old(queue) && 0 < spins ==> r == Stored
      ensures !disposed && offer && start == old(queue) && 0 < spins ==>
                r == if |old(Contents())| < nodes.Length then Stored else Refused
      ensures !offer ==> r != Refused
    {
      var pos := start;
      var n := 0;
      while n < spins
        invariant n <= spins && pos <= queue && (n == 0 ==> pos == start) && (0 < n ==> pos == queue && !offer && !disposed)
        invariant Valid() && queue == old(queue) && dequeue == old(dequeue) && puts == old(puts)
        invariant disposed == old(disposed) && nodes[..] == old(nodes[..])
        invariant 0 < n && (start == queue || 1 < n) ==> queue == dequeue + nodes.Length
      {
        if disposed { return PutDisposed; }
        var i := Slot(mask, pos);
        FreeAt(View(), pos);
        RingProtocol.WordDifference(nodes[i].position, pos);
        match RingProtocol.SwitchOn((nodes[i].position - pos) % WORD) {
          case Claim =>
            if queue == pos {
              Store(item);
              return Stored;
            }
          case Compromised =>
            assert false;
          case Reload =>
            pos := queue;
        }
        if offer { return Refused; }
        n := n + 1;
      }
      return PutWaiting;
    }

    /** Put watched for `spins` turns of its loop. */
    method Put(item: T, spins: nat) returns (r: PutOutcome)
      requires Valid() && queue + nodes.Length + 1 < WORD
      modifies this, nodes
      ensures Valid() && disposed == old(disposed)
      ensures Contents() == if r == Stored then old(Contents()) + [item] else old(Contents())
      ensures 0 < spins ==>
                r == if disposed then PutDisposed
                     else if |old(Contents())| < nodes.Length then Stored
                     else PutWaiting
    {
      r := PutFrom(item, false, queue, spins);
    }

    /** Offer looks once: it refuses exactly when the ring is full. */
    method Offer(item: T) returns (r: PutOutcome)
      requires Valid() && queue + nodes.Length + 1 < WORD
      modifies this, nodes
      ensures Valid() && disposed == old(disposed)
      ensures Contents() == if r == Stored then old(Contents()) + [item] else old(Contents())
      ensures r == if disposed then PutDisposed
                   else if |old(Contents())| == nodes.Length then Refused
                   else Stored
    {
      r := PutFrom(item, true, queue, 1);
    }

    /** The poll loop from a ticket that may be stale. `expires` is the turn at which a timed
        poll finds its timeout reached, if it is timed. */
    method PollFrom(start: nat, expires: Option<nat>, spins: nat) returns (r: GetOutcome<T>)
      requires Valid() && start <= dequeue
      modifies this, nodes
      ensures Valid() && disposed == old(disposed) && queue == old(queue) && puts == old(puts)
      ensures r.Taken? ==> !disposed && old(Contents()) == [r.item] + Contents()
      ensures !r.Taken? ==> Contents() == old(Contents()) && nodes[..] == old(nodes[..])
      ensures r == GetDisposed <==> disposed && 0 < spins
      ensures !disposed && old(Contents()) != [] && expires == None && 2 <= spins ==> r.Taken?
      ensures !disposed && old(Contents()) != [] && start == old(dequeue) && 0 < spins ==> r.Taken?
      ensures r == TimedOut ==> expires.Some? && expires.value < spins
      ensures !disposed && old(Contents()) == [] && expires.Some? && expires.value < spins ==> r == TimedOut
    {
      var pos := start;
      var n := 0;
      while n < spins
        invariant n <= spins && pos <= dequeue && (0 < n ==> pos == dequeue)
        invariant Valid() && queue == old(queue) && dequeue == old(dequeue) && puts == old(puts)
        invariant disposed == old(disposed) && nodes[..] == old(nodes[..])
        invariant (n == 0 ==> pos == start) && (0 < n ==> !disposed && (start == dequeue || 1 < n ==> dequeue == queue))
        invariant expires.Some? ==> n <= expires.value
      {
        if disposed { return GetDisposed; }
        var i := Slot(mask, pos);
        FullAt(View(), pos);
        RingProtocol.WordDifference(nodes[i].position, RingProtocol.Inc(pos));
        match RingProtocol.SwitchOn((nodes[i].position - RingProtocol.Inc(pos)) % WORD) {
          case Claim =>
            if dequeue == pos {
              var x := Take();
              return Taken(x);
            }
          case Compromised =>
            assert false;
          case Reload =>
            pos := dequeue;
        }
        if expires.Some? && expires.value <= n { return TimedOut; }
        n := n + 1;
      }
      return GetWaiting;
    }

    method Poll(expires: Option<nat>, spins: nat) returns (r: GetOutcome<T>)
      requires Valid()
      modifies this, nodes
      ensures Valid() && disposed == old(disposed)
      ensures r.Taken? ==> old(Contents()) == [r.item] + Contents()
      ensures !r.Taken? ==> Contents() == old(Contents())
      ensures 0 < spins ==> (r.Taken? <==> !disposed && old(Contents()) != [])
      ensures 0 < spins ==> (r == GetDisposed <==> disposed)
    {
      r := PollFrom(dequeue, expires, spins);
    }

    method Len() returns (n: nat)
      requires Valid()
      ensures n == |Contents()| && n <= nodes.Length
    {
      n := (queue - dequeue) % WORD;
    }

    method Dispose()
      requires Valid()
      modifies this`disposed
      ensures Valid() && disposed && Contents() == old(Contents())
    {
      if !disposed { disposed := true; }
    }
  }

  /** A protocol state in which no operation is under way. */
  ghost predicate Settled<T>(s: RingProtocol.State<T>) {
    && RingProtocol.Counters(s)
    && (forall p: nat ::
          s.dequeue <= p < s.dequeue + RingProtocol.Cap(s) ==> s.nodes[Slot(s.mask, p)] == SettledNode(s, p))
  }

  ghost function SettledNode<T>(s: RingProtocol.State<T>, p: nat): RingProtocol.Node<T>
    requires s.queue == |s.puts|
  {
    if p < s.queue then RingProtocol.Node(p + 1, Some(s.puts[p]))
    else RingProtocol.Node(p, None)
  }

  /** A slot shows a ticket as free exactly when it is the next one and the ring is not full. */
  lemma FreeAt<T>(s: RingProtocol.State<T>, pos: nat)
    requires Settled(s) && pos <= s.queue
    ensures RingProtocol.NodeAt(s, pos).position < WORD
    ensures RingProtocol.NodeAt(s, pos).position == pos
       <==> pos == s.queue && s.queue < s.dequeue + RingProtocol.Cap(s)
  {
    var p := RingProtocol.WindowTicket(s, pos);
    if s.queue == s.dequeue + RingProtocol.Cap(s) { RingProtocol.SameSlot(s, s.dequeue); }
  }

  lemma FullAt<T>(s: RingProtocol.State<T>, pos: nat)
    requires Settled(s) && pos <= s.dequeue
    ensures RingProtocol.NodeAt(s, pos).position < WORD
    ensures RingProtocol.NodeAt(s, pos).position == pos + 1 <==> pos == s.dequeue < s.queue
    ensures pos == s.dequeue < s.queue ==> RingProtocol.NodeAt(s, pos).data == Some(s.puts[pos])
  {
    var p := RingProtocol.WindowTicket(s, pos);
  }

  lemma StoreSettled<T>(s: RingProtocol.State<T>, item: T)
    requires Settled(s) && s.queue < s.dequeue + RingProtocol.Cap(s) && |s.puts| + 1 + RingProtocol.Cap(s) < WORD
    ensures Settled(RingProtocol.SetNode(s.(queue := s.queue + 1, puts := s.puts + [item]), s.queue,
                                         RingProtocol.Node(s.queue + 1, Some(item))))
  {
    RingProtocol.OtherNodes(s, s.queue, RingProtocol.Node(s.queue + 1, Some(item)));
    var n := RingProtocol.Node(s.queue + 1, Some(item));
    var s' := RingProtocol.SetNode(s.(queue := s.queue + 1, puts := s.puts + [item]), s.queue, n);
    forall p: nat | s'.dequeue <= p < s'.dequeue + RingProtocol.Cap(s')
      ensures s'.nodes[Slot(s'.mask, p)] == SettledNode(s', p)
    {
      assert RingProtocol.NodeAt(s', p) == RingProtocol.NodeAt(RingProtocol.SetNode(s, s.queue, n), p);
      assert RingProtocol.NodeAt(s, p) == SettledNode(s, p);
    }
  }

  lemma TakeSettled<T>(s: RingProtocol.State<T>)
    requires Settled(s) && s.dequeue < s.queue
    ensures Settled(RingProtocol.SetNode(s.(dequeue := s.dequeue + 1), s.dequeue,
                                         RingProtocol.Node(s.dequeue + RingProtocol.Cap(s), None)))
  {
    var d := s.dequeue;
    var n := RingProtocol.Node<T>.Node(d + RingProtocol.Cap(s), None);
    var s' := RingProtocol.SetNode(s.(dequeue := d + 1), d, n);
    RingProtocol.OtherNodes(s, d, n);
    RingProtocol.SameSlot(s', d);
    forall p: nat | s'.dequeue <= p < s'.dequeue + RingProtocol.Cap(s')
      ensures s'.nodes[Slot(s'.mask, p)] == SettledNode(s', p)
    {
      assert RingProtocol.NodeAt(s', p) == RingProtocol.NodeAt(RingProtocol.SetNode(s, d, n), p);
      if p < d + RingProtocol.Cap(s) { assert RingProtocol.NodeAt(s, p) == SettledNode(s, p); }
    }
  }

  lemma BelowWord(size: nat, cap: nat)
    requires 1 <= size <= 0x8000_0000_0000_0000 && LeastPow2AtLeast(size, cap)
    ensures IsPow2(cap) && size <= cap <= 0x8000_0000_0000_0000
  {
    Pow2Of64();
    assert cap <= Pow2(63);
  }
}
