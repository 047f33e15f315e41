/** The lock-free ring of research/queue/ring.go as interleaved atomic steps.

    Every atomic load, compare-and-swap, data access and position store is one step of one
    thread. Tickets are uint64 values; all arithmetic on them is modulo WORD. `puts` and
    `delivered` are history variables: `puts[p]` is the item of the producer whose CAS claimed
    ticket p, `delivered[p]` what the consumer of ticket p handed back to its caller. */
module RingProtocol {
  import opened Options
  import opened Words

  datatype Outcome<+Item> =
    | NotRun
    | Stored
    | Refused
    | Disposed
    | TimedOut
    | Panicked
    | Taken(data: Option<Item>)
    | Length(n: nat)

  /** Where a thread stands: the atomic action it performs next. */
  datatype Pc<+Item> =
    | Idle(outcome: Outcome<Item>)
    // put
    | PutCheck(item: Item, offer: bool, pos: nat)
    | PutLoad(item: Item, offer: bool, pos: nat)
    | PutCas(item: Item, offer: bool, pos: nat)
    | PutReload(item: Item, offer: bool)
    | PutWrite(item: Item, pos: nat)
    | PutPublish(item: Item, pos: nat)
    // Poll; `timed` says that a positive timeout was given
    | GetCheck(timed: bool, pos: nat)
    | GetLoad(timed: bool, pos: nat)
    | GetCas(timed: bool, pos: nat)
    | GetReload(timed: bool)
    | GetRead(pos: nat)
    | GetClear(pos: nat, data: Option<Item>)
    | GetRecycle(pos: nat, data: Option<Item>)
    // Len, between its two loads
    | LenSecond(q: nat)

  datatype Node<+Item> = Node(position: nat, data: Option<Item>)

  datatype State<+Item> = State(
    mask: nat,
    queue: nat,
    dequeue: nat,
    disposed: bool,
    nodes: seq<Node<Item>>,
    threads: seq<Pc<Item>>,
    puts: seq<Item>,
    delivered: map<nat, Option<Item>>)

  /** The choices of the environment: which operation an idle thread starts, and whether the
      clock has run out when a timed poll looks at it. */
  datatype Action<+Item> =
    | StartPut(item: Item, offer: bool)
    | StartPoll(timed: bool)
    | StartLen
    | Dispose
    | Go(expired: bool)

  type Schedule<Item> = seq<(nat, Action<Item>)>

  ghost predicate Sized<Item>(s: State<Item>) {
    IsPow2(s.mask + 1) && |s.nodes| == s.mask + 1
  }

  function Inc(x: nat): nat { (x + 1) % WORD }

  function Goto<Item>(s: State<Item>, t: nat, pc: Pc<Item>): State<Item>
    requires t < |s.threads|
  {
    s.(threads := s.threads[t := pc])
  }

  function SetNode<Item>(s: State<Item>, pos: nat, n: Node<Item>): State<Item>
    requires Sized(s)
  {
    s.(nodes := s.nodes[Slot(s.mask, pos) := n])
  }

  function NodeAt<Item>(s: State<Item>, pos: nat): Node<Item>
    requires Sized(s)
  {
    s.nodes[Slot(s.mask, pos)]
  }

  function Begin<Item>(s: State<Item>, t: nat, a: Action<Item>): State<Item>
    requires t < |s.threads|
  {
    match a
    case StartPut(item, offer) => Goto(s, t, PutCheck(item, offer, s.queue))
    case StartPoll(timed) => Goto(s, t, GetCheck(timed, s.dequeue))
    case StartLen => Goto(s, t, LenSecond(s.queue))
    case Dispose => s.(disposed := true)
    case Go(_) => s
  }

  function PutRetry<Item>(s: State<Item>, t: nat, item: Item, offer: bool, pos: nat): State<Item>
    requires t < |s.threads|
  {
    Goto(s, t, if offer then Idle(Refused) else PutCheck(item, offer, pos))
  }

  function GetRetry<Item>(s: State<Item>, t: nat, timed: bool, pos: nat, a: Action<Item>): State<Item>
    requires t < |s.threads|
  {
    Goto(s, t, if timed && a == Go(true) then Idle(TimedOut) else GetCheck(timed, pos))
  }

  function PutClaim<Item>(s: State<Item>, t: nat, item: Item, pos: nat): State<Item>
    requires t < |s.threads|
  {
    Goto(s.(queue := Inc(pos), puts := s.puts + [item]), t, PutWrite(item, pos))
  }

  function GetClaim<Item>(s: State<Item>, t: nat, pos: nat): State<Item>
    requires t < |s.threads|
  {
    Goto(s.(dequeue := Inc(pos)), t, GetRead(pos))
  }

  /** Thread t is about to succeed with a compare-and-swap on one of the two counters. */
  predicate Claims<Item>(s: State<Item>, t: nat) {
    t < |s.threads|
    && var pc := s.threads[t];
       (pc.PutCas? && s.queue == pc.pos) || (pc.GetCas? && s.dequeue == pc.pos)
  }

  /** The three arms of the switch both loops make on the difference of two tickets. */
  datatype Arm = Claim | Compromised | Reload

  function SwitchOn(dif: int): Arm {
    if dif == 0 then Claim else if dif < 0 then Compromised else Reload
  }

  /** Where a put goes on after it has compared a slot's position with its ticket. */
  function PutLooked<Item>(item: Item, offer: bool, pos: nat, dif: int): Pc<Item> {
    match SwitchOn(dif)
    case Claim => PutCas(item, offer, pos)
    case Compromised => Idle(Panicked)
    case Reload => PutReload(item, offer)
  }

  function GetLooked<Item>(timed: bool, pos: nat, dif: int): Pc<Item> {
    match SwitchOn(dif)
    case Claim => GetCas(timed, pos)
    case Compromised => Idle(Panicked)
    case Reload => GetReload(timed)
  }

  /** One atomic step of thread t. The differences of the two loops are uint64. */
  function Step<Item>(s: State<Item>, t: nat, a: Action<Item>): (r: State<Item>)
    requires Sized(s)
    ensures r.mask == s.mask && |r.nodes| == |s.nodes| && |r.threads| == |s.threads|
    ensures !Claims(s, t) ==> r.puts == s.puts && r.queue == s.queue && r.dequeue == s.dequeue
  {
    if t >= |s.threads| then s else
    match s.threads[t]
    case Idle(_) => Begin(s, t, a)
    case PutCheck(item, offer, pos) =>
      Goto(s, t, if s.disposed then Idle(Disposed) else PutLoad(item, offer, pos))
    case PutLoad(item, offer, pos) =>
      Goto(s, t, PutLooked(item, offer, pos, (NodeAt(s, pos).position - pos) % WORD))
    case PutCas(item, offer, pos) =>
      if s.queue == pos then PutClaim(s, t, item, pos) else PutRetry(s, t, item, offer, pos)
    case PutReload(item, offer) => PutRetry(s, t, item, offer, s.queue)
    case PutWrite(item, pos) =>
      Goto(SetNode(s, pos, NodeAt(s, pos).(data := Some(item))), t, PutPublish(item, pos))
    case PutPublish(item, pos) =>
      Goto(SetNode(s, pos, NodeAt(s, pos).(position := Inc(pos))), t, Idle(Stored))
    case GetCheck(timed, pos) =>
      Goto(s, t, if s.disposed then Idle(Disposed) else GetLoad(timed, pos))
    case GetLoad(timed, pos) =>
      Goto(s, t, GetLooked(timed, pos, (NodeAt(s, pos).position - Inc(pos)) % WORD))
    case GetCas(timed, pos) =>
      if s.dequeue == pos then GetClaim(s, t, pos) else GetRetry(s, t, timed, pos, a)
    case GetReload(timed) => GetRetry(s, t, timed, s.dequeue, a)
    case GetRead(pos) => Goto(s, t, GetClear(pos, NodeAt(s, pos).data))
    case GetClear(pos, data) =>
      Goto(SetNode(s, pos, NodeAt(s, pos).(data := None)), t, GetRecycle(pos, data))
    case GetRecycle(pos, data) =>
      Goto(SetNode(s.(delivered := s.delivered[pos := data]), pos,
                   NodeAt(s, pos).(position := (pos + s.mask + 1) % WORD)),
           t, Idle(Taken(data)))
    case LenSecond(q) => Goto(s, t, Idle(Length((q - s.dequeue) % WORD)))
  }

  /** A fresh ring of mask+1 slots and n idle threads. */
  function Init<Item>(mask: nat, n: nat): State<Item> {
    State(mask, 0, 0, false, seq(mask + 1, (i: nat) => Node(i, None)), seq(n, _ => Idle(NotRun)), [], map[])
  }

  /** The state after the first n steps of a schedule. */
  ghost function After<Item>(s: State<Item>, sched: Schedule<Item>, n: nat): State<Item>
    requires Sized(s) && n <= |sched|
    ensures Sized(After(s, sched, n))
  {
    if n == 0 then s else
    var before := After(s, sched, n - 1);
    Step(before, sched[n - 1].0, sched[n - 1].1)
  }

  // ---------------------------------------------------------------- the invariant

  function Cap<Item>(s: State<Item>): nat { s.mask + 1 }

  /** Fewer puts than the tickets can number; past that, a stalled thread could see a ticket
      value recur. */
  predicate Small<Item>(s: State<Item>) { |s.puts| + s.mask + 1 < WORD }

  ghost predicate Counters<Item>(s: State<Item>) {
    && Sized(s) && 1 <= s.mask && Small(s)
    && s.queue == |s.puts|
    && s.dequeue <= s.queue <= s.dequeue + Cap(s)
  }

  /** A ticket between the two counters: being written, or published with its item. */
  ghost predicate ClaimedTicket<Item>(s: State<Item>, p: nat)
    requires Sized(s) && p < |s.puts|
  {
    var n := NodeAt(s, p);
    n.position == p || (n.position == p + 1 && n.data == Some(s.puts[p]))
  }

  /** A ticket not yet claimed: free, or its predecessor is still being drained. */
  ghost predicate OpenTicket<Item>(s: State<Item>, p: nat)
    requires Sized(s)
  {
    var n := NodeAt(s, p);
    (n.position == p && n.data == None) || (s.mask < p && n.position + s.mask == p)
  }

  ghost predicate Tickets<Item>(s: State<Item>)
    requires Counters(s)
  {
    && (forall p: nat :: s.dequeue <= p < s.queue ==> ClaimedTicket(s, p))
    && (forall p: nat :: s.queue <= p < s.dequeue + Cap(s) ==> OpenTicket(s, p))
  }

  /** Thread state pc is inside the claim window of ticket p, as its producer. */
  predicate Writes<Item>(pc: Pc<Item>, p: nat) {
    (pc.PutWrite? || pc.PutPublish?) && pc.pos == p
  }

  predicate Drains<Item>(pc: Pc<Item>, p: nat) {
    (pc.GetRead? || pc.GetClear? || pc.GetRecycle?) && pc.pos == p
  }

  ghost predicate WriterOk<Item>(s: State<Item>, item: Item, pos: nat)
    requires Counters(s)
  {
    s.dequeue <= pos < s.queue && NodeAt(s, pos).position == pos && s.puts[pos] == item
  }

  ghost predicate DrainerOk<Item>(s: State<Item>, pos: nat)
    requires Counters(s)
  {
    s.queue <= pos + Cap(s) && pos < s.dequeue && NodeAt(s, pos).position == pos + 1
  }

  ghost predicate PcOk<Item>(s: State<Item>, pc: Pc<Item>)
    requires Counters(s)
  {
    match pc
    case Idle(_) => true
    case PutCheck(_, _, pos) => pos <= s.queue
    case PutLoad(_, _, pos) => pos <= s.queue
    case PutCas(_, _, pos) =>
      pos <= s.queue && (pos == s.queue ==> s.queue < s.dequeue + Cap(s) && NodeAt(s, pos).position == pos)
    case PutReload(_, _) => true
    case PutWrite(item, pos) => WriterOk(s, item, pos)
    case PutPublish(item, pos) => WriterOk(s, item, pos) && NodeAt(s, pos).data == Some(item)
    case GetCheck(_, pos) => pos <= s.dequeue
    case GetLoad(_, pos) => pos <= s.dequeue
    case GetCas(_, pos) =>
      pos <= s.dequeue && (pos == s.dequeue ==> s.dequeue < s.queue && NodeAt(s, pos).position == pos + 1)
    case GetReload(_) => true
    case GetRead(pos) => DrainerOk(s, pos) && NodeAt(s, pos).data == Some(s.puts[pos])
    case GetClear(pos, data) => DrainerOk(s, pos) && data == Some(s.puts[pos])
    case GetRecycle(pos, data) => DrainerOk(s, pos) && data == Some(s.puts[pos]) && NodeAt(s, pos).data == None
    case LenSecond(q) => q <= s.queue && q <= s.dequeue + Cap(s)
  }

  ghost predicate ThreadsOk<Item>(s: State<Item>)
    requires Counters(s)
  {
    forall t: nat :: t < |s.threads| ==> PcOk(s, s.threads[t])
  }

  /** No two threads are inside the claim window of one ticket. */
  ghost predicate Exclusive<Item>(s: State<Item>) {
    && (forall t: nat, u: nat, p: nat {:trigger Writes(s.threads[t], p), Writes(s.threads[u], p)} ::
          t < u < |s.threads| ==> !(Writes(s.threads[t], p) && Writes(s.threads[u], p)))
    && (forall t: nat, u: nat, p: nat {:trigger Drains(s.threads[t], p), Drains(s.threads[u], p)} ::
          t < u < |s.threads| ==> !(Drains(s.threads[t], p) && Drains(s.threads[u], p)))
  }

  ghost predicate DeliveredOk<Item>(s: State<Item>)
    requires Counters(s)
  {
    forall p :: p in s.delivered ==>
      && p < s.dequeue
      && s.delivered[p] == Some(s.puts[p])
      && (forall t: nat :: t < |s.threads| ==> !Drains(s.threads[t], p))
  }

  ghost predicate Inv<Item>(s: State<Item>) {
    Counters(s) && Tickets(s) && ThreadsOk(s) && Exclusive(s) && DeliveredOk(s)
  }

  // ---------------------------------------------------------------- steps keep the invariant

  lemma InitInv<Item>(mask: nat, n: nat)
    requires IsPow2(mask + 1) && 1 <= mask && mask + 1 < WORD
    ensures Inv(Init<Item>(mask, n))
  {
    var s := Init<Item>(mask, n);
    forall p: nat | p < mask + 1 ensures OpenTicket(s, p) {
      SlotIsMod(mask, p);
      ModUnique(p, mask + 1, 0, p);
    }
  }

  /** A step that only moves thread t on. */
  lemma ControlStep<Item>(s: State<Item>, t: nat, pc: Pc<Item>)
    requires Inv(s) && t < |s.threads| && PcOk(s, pc)
    requires forall p: nat :: !Writes(pc, p)
    requires forall p: nat :: Drains(pc, p) ==> Drains(s.threads[t], p)
    ensures Inv(Goto(s, t, pc))
  {
    ThreadsOnly(s, t, pc);
    ExclusiveFrame(s, Goto(s, t, pc), t, pc);
    DeliveredFrame(s, Goto(s, t, pc), t, pc);
  }

  lemma PcFrame<Item>(s: State<Item>, s': State<Item>, pc: Pc<Item>)
    requires Counters(s) && Counters(s') && PcOk(s, pc)
    requires s'.mask == s.mask && s'.queue == s.queue && s'.dequeue == s.dequeue
    requires s'.nodes == s.nodes && s'.puts == s.puts
    ensures PcOk(s', pc)
  {
  }

  /** Writing the slot of one ticket of the window leaves every other ticket's node alone. */
  lemma OtherNodes<Item>(s: State<Item>, pos: nat, n: Node<Item>)
    requires Counters(s) && s.dequeue <= pos < s.dequeue + Cap(s)
    ensures forall p: nat {:trigger NodeAt(SetNode(s, pos, n), p)} {:trigger NodeAt(s, p)} ::
              s.dequeue <= p < s.dequeue + Cap(s) && p != pos ==> NodeAt(SetNode(s, pos, n), p) == NodeAt(s, p)
    ensures NodeAt(SetNode(s, pos, n), pos) == n
  {
    SlotsDistinct(s.mask, s.dequeue);
  }

  /** The tickets a drained slot serves: its own, and the one a capacity later. */
  lemma SameSlot<Item>(s: State<Item>, pos: nat)
    requires Sized(s)
    ensures NodeAt(s, pos + Cap(s)) == NodeAt(s, pos)
    ensures forall n: Node<Item> :: SetNode(s, pos + Cap(s), n) == SetNode(s, pos, n)
  {
    SlotsDistinct(s.mask, pos);
  }

  /** A compare-and-swap that claims a put ticket happens only on a free slot of a ring that
      is not full. */
  lemma PutClaimReady<Item>(s: State<Item>, t: nat)
    requires Inv(s) && t < |s.threads| && s.threads[t].PutCas? && s.threads[t].pos == s.queue
    ensures s.queue < s.dequeue + Cap(s) && NodeAt(s, s.queue) == Node(s.queue, None)
  {
    assert PcOk(s, s.threads[t]);
    assert OpenTicket(s, s.queue);
  }

  lemma PutClaimStep<Item>(s: State<Item>, t: nat, item: Item)
    requires Inv(s) && t < |s.threads|
    requires s.queue < s.dequeue + Cap(s) && NodeAt(s, s.queue) == Node(s.queue, None)
    requires |s.puts| + 1 + Cap(s) < WORD
    ensures Inv(PutClaim(s, t, item, s.queue))
  {
    PutClaimThreads(s, t, item);
    PutClaimHistory(s, t, item);
  }

  lemma PutClaimThreads<Item>(s: State<Item>, t: nat, item: Item)
    requires Counters(s) && Tickets(s) && ThreadsOk(s) && t < |s.threads| && |s.puts| + 1 + Cap(s) < WORD
    requires s.queue < s.dequeue + Cap(s) && NodeAt(s, s.queue).position == s.queue
    ensures var s' := PutClaim(s, t, item, s.queue); Counters(s') && Tickets(s') && ThreadsOk(s')
  {
    var mid := s.(queue := s.queue + 1, puts := s.puts + [item]);
    PutClaimTickets(s, item);
    forall u: nat | u < |s.threads| && u != t ensures PcOk(mid, s.threads[u]) {
      PcUnderPutClaim(s, item, s.threads[u]);
    }
    ThreadsOnly(mid, t, PutWrite(item, s.queue));
    assert PutClaim(s, t, item, s.queue) == Goto(mid, t, PutWrite(item, s.queue));
  }

  lemma PutClaimHistory<Item>(s: State<Item>, t: nat, item: Item)
    requires Counters(s) && ThreadsOk(s) && Exclusive(s) && DeliveredOk(s) && t < |s.threads|
    requires Counters(PutClaim(s, t, item, s.queue))
    ensures var s' := PutClaim(s, t, item, s.queue); Exclusive(s') && DeliveredOk(s')
  {
    var s' := PutClaim(s, t, item, s.queue);
    ClaimsBelow(s);
    PutExclusive(s, s', t, PutWrite(item, s.queue), s.queue);
    PutDelivered(s, s', t, PutWrite(item, s.queue));
  }

  lemma ClaimsBelow<Item>(s: State<Item>)
    requires Counters(s) && ThreadsOk(s)
    ensures forall u: nat, p: nat :: u < |s.threads| && Writes(s.threads[u], p) ==> p < s.queue
    ensures forall u: nat, p: nat :: u < |s.threads| && Drains(s.threads[u], p) ==> p < s.dequeue
  {
    forall u: nat, p: nat | u < |s.threads| && Writes(s.threads[u], p) ensures p < s.queue {
      assert PcOk(s, s.threads[u]);
    }
    forall u: nat, p: nat | u < |s.threads| && Drains(s.threads[u], p) ensures p < s.dequeue {
      assert PcOk(s, s.threads[u]);
    }
  }

  lemma PutExclusive<Item>(s: State<Item>, s': State<Item>, t: nat, pc: Pc<Item>, claimed: nat)
    requires Exclusive(s) && t < |s.threads| && s'.threads == s.threads[t := pc] && pc.PutWrite? && pc.pos == claimed
    requires forall u: nat, p: nat :: u < |s.threads| && Writes(s.threads[u], p) ==> p < claimed
    ensures Exclusive(s')
  {
  }

  lemma PutDelivered<Item>(s: State<Item>, s': State<Item>, t: nat, pc: Pc<Item>)
    requires Counters(s) && Counters(s') && DeliveredOk(s) && t < |s.threads| && pc.PutWrite?
    requires s'.threads == s.threads[t := pc] && s'.delivered == s.delivered && s'.dequeue == s.dequeue
    requires s.puts <= s'.puts
    ensures DeliveredOk(s')
  {
  }

  lemma PutClaimTickets<Item>(s: State<Item>, item: Item)
    requires Counters(s) && Tickets(s) && |s.puts| + 1 + Cap(s) < WORD
    requires s.queue < s.dequeue + Cap(s) && NodeAt(s, s.queue).position == s.queue
    ensures Counters(s.(queue := s.queue + 1, puts := s.puts + [item]))
    ensures Tickets(s.(queue := s.queue + 1, puts := s.puts + [item]))
  {
    var s' := s.(queue := s.queue + 1, puts := s.puts + [item]);
    forall p: nat | s'.dequeue <= p < s'.queue ensures ClaimedTicket(s', p) {
      if p < s.queue { assert ClaimedTicket(s, p); }
    }
    forall p: nat | s'.queue <= p < s'.dequeue + Cap(s') ensures OpenTicket(s', p) {
      assert OpenTicket(s, p);
    }
  }

  lemma PcUnderPutClaim<Item>(s: State<Item>, item: Item, pc: Pc<Item>)
    requires Counters(s) && |s.puts| + 1 + Cap(s) < WORD && PcOk(s, pc)
    requires s.queue < s.dequeue + Cap(s) && NodeAt(s, s.queue).position == s.queue
    ensures Counters(s.(queue := s.queue + 1, puts := s.puts + [item]))
    ensures PcOk(s.(queue := s.queue + 1, puts := s.puts + [item]), pc)
  {
    if pc.GetRead? || pc.GetClear? || pc.GetRecycle? {
      // the claimed slot is free, so it is not the one this thread still drains
      if s.queue == pc.pos + Cap(s) { SameSlot(s, pc.pos); }
    }
  }

  /** A compare-and-swap that claims a get ticket happens only on a published item. */
  lemma GetClaimReady<Item>(s: State<Item>, t: nat)
    requires Inv(s) && t < |s.threads| && s.threads[t].GetCas? && s.threads[t].pos == s.dequeue
    ensures s.dequeue < s.queue && NodeAt(s, s.dequeue) == Node(s.dequeue + 1, Some(s.puts[s.dequeue]))
  {
    assert PcOk(s, s.threads[t]);
    assert ClaimedTicket(s, s.dequeue);
  }

  lemma GetClaimStep<Item>(s: State<Item>, t: nat)
    requires Inv(s) && t < |s.threads|
    requires s.dequeue < s.queue && NodeAt(s, s.dequeue) == Node(s.dequeue + 1, Some(s.puts[s.dequeue]))
    ensures Inv(GetClaim(s, t, s.dequeue))
  {
    GetClaimThreads(s, t);
    GetClaimHistory(s, t);
  }

  lemma GetClaimThreads<Item>(s: State<Item>, t: nat)
    requires Counters(s) && Tickets(s) && ThreadsOk(s) && t < |s.threads|
    requires s.dequeue < s.queue && NodeAt(s, s.dequeue) == Node(s.dequeue + 1, Some(s.puts[s.dequeue]))
    ensures var s' := GetClaim(s, t, s.dequeue); Counters(s') && Tickets(s') && ThreadsOk(s')
  {
    var mid := s.(dequeue := s.dequeue + 1);
    GetClaimTickets(s);
    forall u: nat | u < |s.threads| && u != t ensures PcOk(mid, s.threads[u]) {
      PcUnderGetClaim(s, s.threads[u]);
    }
    ThreadsOnly(mid, t, GetRead(s.dequeue));
    assert GetClaim(s, t, s.dequeue) == Goto(mid, t, GetRead(s.dequeue));
  }

  lemma GetClaimHistory<Item>(s: State<Item>, t: nat)
    requires Counters(s) && ThreadsOk(s) && Exclusive(s) && DeliveredOk(s) && t < |s.threads|
    requires Counters(GetClaim(s, t, s.dequeue))
    ensures var s' := GetClaim(s, t, s.dequeue); Exclusive(s') && DeliveredOk(s')
  {
    var s' := GetClaim(s, t, s.dequeue);
    ClaimsBelow(s);
    GetExclusive(s, s', t, GetRead(s.dequeue), s.dequeue);
    GetDelivered(s, s', t, GetRead(s.dequeue));
  }

  lemma GetExclusive<Item>(s: State<Item>, s': State<Item>, t: nat, pc: Pc<Item>, claimed: nat)
    requires Exclusive(s) && t < |s.threads| && s'.threads == s.threads[t := pc] && pc == GetRead(claimed)
    requires forall u: nat, p: nat :: u < |s.threads| && Drains(s.threads[u], p) ==> p < claimed
    ensures Exclusive(s')
  {
  }

  lemma GetDelivered<Item>(s: State<Item>, s': State<Item>, t: nat, pc: Pc<Item>)
    requires Counters(s) && Counters(s') && DeliveredOk(s) && t < |s.threads| && pc == GetRead(s.dequeue)
    requires s'.threads == s.threads[t := pc] && s'.delivered == s.delivered && s'.puts == s.puts
    requires s'.dequeue == s.dequeue + 1
    ensures DeliveredOk(s')
  {
  }

  lemma PcUnderGetClaim<Item>(s: State<Item>, pc: Pc<Item>)
    requires Counters(s) && PcOk(s, pc)
    requires s.dequeue < s.queue && NodeAt(s, s.dequeue).position == s.dequeue + 1
    ensures Counters(s.(dequeue := s.dequeue + 1)) && PcOk(s.(dequeue := s.dequeue + 1), pc)
  {
  }

  lemma GetClaimTickets<Item>(s: State<Item>)
    requires Counters(s) && Tickets(s)
    requires s.dequeue < s.queue && NodeAt(s, s.dequeue).position == s.dequeue + 1
    ensures Counters(s.(dequeue := s.dequeue + 1)) && Tickets(s.(dequeue := s.dequeue + 1))
  {
    var s' := s.(dequeue := s.dequeue + 1);
    forall p: nat | s'.dequeue <= p < s'.queue ensures ClaimedTicket(s', p) {
      assert ClaimedTicket(s, p);
    }
    forall p: nat | s'.queue <= p < s'.dequeue + Cap(s') ensures OpenTicket(s', p) {
      if p < s.dequeue + Cap(s) {
        assert OpenTicket(s, p);
      } else {
        SameSlot(s, s.dequeue);
      }
    }
  }

  /** Thread states that the owner of a window ticket cannot disturb by writing its node. */
  lemma PcUnderWriter<Item>(s: State<Item>, pos: nat, n: Node<Item>, pc: Pc<Item>)
    requires Counters(s) && s.dequeue <= pos < s.queue && NodeAt(s, pos).position == pos
    requires PcOk(s, pc) && !Writes(pc, pos)
    ensures PcOk(SetNode(s, pos, n), pc)
  {
    OtherNodes(s, pos, n);
    if pc.GetRead? || pc.GetClear? || pc.GetRecycle? {
      DrainedFrame(s, pos, n, pc.pos);
    }
  }

  lemma PcUnderDrainer<Item>(s: State<Item>, pos: nat, n: Node<Item>, pc: Pc<Item>)
    requires Counters(s) && DrainerOk(s, pos) && PcOk(s, pc) && !Drains(pc, pos)
    ensures PcOk(SetNode(s, pos, n), pc)
  {
    SameSlot(s, pos);
    OtherNodes(s, pos + Cap(s), n);
    if pc.GetRead? || pc.GetClear? || pc.GetRecycle? {
      DrainedFrame(s, pos + Cap(s), n, pc.pos);
    }
  }

  lemma DrainedFrame<Item>(s: State<Item>, pos: nat, n: Node<Item>, drained: nat)
    requires Counters(s) && s.dequeue <= pos < s.dequeue + Cap(s)
    requires s.dequeue <= drained + Cap(s) < s.dequeue + Cap(s) && drained + Cap(s) != pos
    ensures NodeAt(SetNode(s, pos, n), drained) == NodeAt(s, drained)
  {
    SameSlot(s, drained);
    SameSlot(SetNode(s, pos, n), drained);
    OtherNodes(s, pos, n);
    assert NodeAt(SetNode(s, pos, n), drained + Cap(s)) == NodeAt(s, drained + Cap(s));
  }

  /** What the producer of ticket pos does to its slot while it holds it. */
  lemma WriterTickets<Item>(s: State<Item>, pos: nat, n: Node<Item>)
    requires Counters(s) && Tickets(s) && s.dequeue <= pos < s.queue
    requires n.position == pos || n == Node(pos + 1, Some(s.puts[pos]))
    ensures Counters(SetNode(s, pos, n)) && Tickets(SetNode(s, pos, n))
  {
    var s' := SetNode(s, pos, n);
    OtherNodes(s, pos, n);
    forall p: nat | s'.dequeue <= p < s'.queue ensures ClaimedTicket(s', p) {
      assert ClaimedTicket(s, p);
    }
    forall p: nat | s'.queue <= p < s'.dequeue + Cap(s') ensures OpenTicket(s', p) {
      assert OpenTicket(s, p);
    }
  }

  lemma DrainerTickets<Item>(s: State<Item>, pos: nat, n: Node<Item>)
    requires Counters(s) && Tickets(s) && DrainerOk(s, pos)
    requires n == Node(pos + 1, None) || n == Node(pos + Cap(s), None)
    ensures Counters(SetNode(s, pos, n)) && Tickets(SetNode(s, pos, n))
  {
    var s' := SetNode(s, pos, n);
    SameSlot(s, pos);
    OtherNodes(s, pos + Cap(s), n);
    forall p: nat | s'.dequeue <= p < s'.queue ensures ClaimedTicket(s', p) {
      assert ClaimedTicket(s, p);
    }
    forall p: nat | s'.queue <= p < s'.dequeue + Cap(s') ensures OpenTicket(s', p) {
      assert OpenTicket(s, p);
    }
  }

  lemma WritersApart<Item>(s: State<Item>, t: nat, u: nat, p: nat)
    requires Exclusive(s) && t < |s.threads| && u < |s.threads| && t != u && Writes(s.threads[t], p)
    ensures !Writes(s.threads[u], p)
  {
  }

  lemma DrainersApart<Item>(s: State<Item>, t: nat, u: nat, p: nat)
    requires Exclusive(s) && t < |s.threads| && u < |s.threads| && t != u && Drains(s.threads[t], p)
    ensures !Drains(s.threads[u], p)
  {
  }

  /** Leaving or staying in its own claim window keeps a thread's claims exclusive. */
  lemma ExclusiveFrame<Item>(s: State<Item>, s': State<Item>, t: nat, pc: Pc<Item>)
    requires Exclusive(s) && t < |s.threads| && s'.threads == s.threads[t := pc]
    requires forall p: nat :: Writes(pc, p) ==> Writes(s.threads[t], p)
    requires forall p: nat :: Drains(pc, p) ==> Drains(s.threads[t], p)
    ensures Exclusive(s')
  {
  }

  lemma DeliveredFrame<Item>(s: State<Item>, s': State<Item>, t: nat, pc: Pc<Item>)
    requires Counters(s) && Counters(s') && DeliveredOk(s) && t < |s.threads|
    requires s'.threads == s.threads[t := pc] && s'.delivered == s.delivered
    requires s'.puts == s.puts && s'.dequeue == s.dequeue
    requires forall p: nat :: Drains(pc, p) ==> Drains(s.threads[t], p)
    ensures DeliveredOk(s')
  {
  }

  lemma WriterStep<Item>(s: State<Item>, t: nat, pos: nat, n: Node<Item>, pc: Pc<Item>)
    requires Inv(s) && t < |s.threads| && Writes(s.threads[t], pos)
    requires n.data == Some(s.threads[t].item)
    requires (n.position == pos && pc == PutPublish(s.threads[t].item, pos)) || (n.position == pos + 1 && pc == Idle(Stored))
    ensures Inv(Goto(SetNode(s, pos, n), t, pc))
  {
    var mid := SetNode(s, pos, n);
    var s' := Goto(mid, t, pc);
    assert PcOk(s, s.threads[t]);
    WriterTickets(s, pos, n);
    OtherNodes(s, pos, n);
    forall u: nat | u < |s.threads| && u != t ensures PcOk(mid, s.threads[u]) {
      WritersApart(s, t, u, pos);
      PcUnderWriter(s, pos, n, s.threads[u]);
    }
    ThreadsOnly(mid, t, pc);
    ExclusiveFrame(s, s', t, pc);
    DeliveredFrame(s, s', t, pc);
  }

  lemma DrainerStep<Item>(s: State<Item>, t: nat, pos: nat, n: Node<Item>, pc: Pc<Item>)
    requires Inv(s) && t < |s.threads| && Drains(s.threads[t], pos) && !s.threads[t].GetRead?
    requires
      || (n == Node(pos + 1, None) && pc == GetRecycle(pos, s.threads[t].data))
      || (n == Node(pos + Cap(s), None) && pc == Idle(Taken(s.threads[t].data)))
    ensures Inv(Goto(SetNode(s, pos, n), t, pc))
  {
    var mid := SetNode(s, pos, n);
    var s' := Goto(mid, t, pc);
    assert PcOk(s, s.threads[t]);
    DrainerTickets(s, pos, n);
    forall u: nat | u < |s.threads| && u != t ensures PcOk(mid, s.threads[u]) {
      DrainersApart(s, t, u, pos);
      PcUnderDrainer(s, pos, n, s.threads[u]);
    }
    ThreadsOnly(mid, t, pc);
    ExclusiveFrame(s, s', t, pc);
    DeliveredFrame(s, s', t, pc);
  }

  /** The shared part of the invariant does not look at the threads. */
  lemma ThreadsOnly<Item>(s: State<Item>, t: nat, pc: Pc<Item>)
    requires Counters(s) && Tickets(s) && t < |s.threads| && PcOk(s, pc)
    requires forall u: nat :: u < |s.threads| && u != t ==> PcOk(s, s.threads[u])
    ensures Counters(Goto(s, t, pc)) && Tickets(Goto(s, t, pc)) && ThreadsOk(Goto(s, t, pc))
  {
    var s' := Goto(s, t, pc);
    forall p: nat | s'.dequeue <= p < s'.queue ensures ClaimedTicket(s', p) {
      assert ClaimedTicket(s, p);
    }
    forall p: nat | s'.queue <= p < s'.dequeue + Cap(s') ensures OpenTicket(s', p) {
      assert OpenTicket(s, p);
    }
    forall u: nat | u < |s'.threads| ensures PcOk(s', s'.threads[u]) {
      PcFrame(s, s', s'.threads[u]);
    }
  }

  /** Handing an item back: the thread leaves the window and the ticket becomes delivered. */
  lemma DeliverStep<Item>(s: State<Item>, t: nat, pos: nat, a: Action<Item>)
    requires Inv(s) && t < |s.threads| && s.threads[t].GetRecycle? && s.threads[t].pos == pos
    ensures Inv(Step(s, t, a))
    ensures pos !in s.delivered && Step(s, t, a).delivered == s.delivered[pos := Some(s.puts[pos])]
  {
    hide PutLooked, GetLooked, Begin;
    var pc := s.threads[t];
    assert PcOk(s, pc);
    assert Drains(pc, pos);
    var left := Idle(Taken(pc.data));
    var n := Node(pos + Cap(s), None);
    assert NodeAt(s, pos).(position := (pos + s.mask + 1) % WORD) == n;
    DrainerStep(s, t, pos, n, left);
    var mid := Goto(SetNode(s, pos, n), t, left);
    forall u: nat | u < |mid.threads| ensures !Drains(mid.threads[u], pos) {
      if u != t { DrainersApart(s, t, u, pos); }
    }
    RecordDelivery(mid, pos);
  }

  lemma RecordDelivery<Item>(s: State<Item>, p: nat)
    requires Inv(s) && p < s.dequeue
    requires forall u: nat :: u < |s.threads| ==> !Drains(s.threads[u], p)
    ensures Inv(s.(delivered := s.delivered[p := Some(s.puts[p])]))
  {
    var s' := s.(delivered := s.delivered[p := Some(s.puts[p])]);
    forall q: nat | s'.dequeue <= q < s'.queue ensures ClaimedTicket(s', q) {
      assert ClaimedTicket(s, q);
    }
    forall q: nat | s'.queue <= q < s'.dequeue + Cap(s') ensures OpenTicket(s', q) {
      assert OpenTicket(s, q);
    }
    forall u: nat | u < |s'.threads| ensures PcOk(s', s'.threads[u]) {
      PcFrame(s, s', s.threads[u]);
    }
  }

  // ---------------------------------------------------------------- every step

  /** The difference is unsigned: equal words claim, and a slot that is behind reloads just as
      one that is ahead does, although signed arithmetic would make it panic. */
  lemma WordDifference(a: nat, b: nat)
    requires a < WORD && b < WORD
    ensures (a - b) % WORD == 0 <==> a == b
    ensures SwitchOn((a - b) % WORD) == if a == b then Claim else Reload
    ensures SwitchOn(a - b).Compromised? <==> a < b
  {
  }

  lemma PutLoadOk<Item>(s: State<Item>, item: Item, offer: bool, pos: nat)
    requires Counters(s) && Tickets(s) && pos <= s.queue && NodeAt(s, pos).position == pos
    ensures PcOk(s, PutCas(item, offer, pos))
  {
    if s.queue == s.dequeue + Cap(s) {
      SameSlot(s, s.dequeue);
      assert ClaimedTicket(s, s.dequeue);
    }
  }

  lemma GetLoadOk<Item>(s: State<Item>, timed: bool, pos: nat)
    requires Counters(s) && Tickets(s) && pos <= s.dequeue && NodeAt(s, pos).position == pos + 1
    ensures PcOk(s, GetCas(timed, pos))
  {
    if s.dequeue == s.queue {
      assert OpenTicket(s, s.dequeue);
    }
  }

  /** In the window every position is a small number. */
  lemma PositionsSmall<Item>(s: State<Item>, pos: nat)
    requires Counters(s) && Tickets(s) && pos <= s.queue
    ensures NodeAt(s, pos).position < WORD
  {
    var p := WindowTicket(s, pos);
    if p < s.queue { assert ClaimedTicket(s, p); } else { assert OpenTicket(s, p); }
  }

  /** The ticket of the current window that shares its slot with an older ticket. */
  lemma WindowTicket<Item>(s: State<Item>, pos: nat) returns (p: nat)
    requires Sized(s) && pos <= s.dequeue + Cap(s)
    ensures s.dequeue <= p < s.dequeue + Cap(s)
    ensures NodeAt(s, p) == NodeAt(s, pos)
    ensures pos < s.dequeue ==> pos + Cap(s) <= p
    ensures s.dequeue <= pos < s.dequeue + Cap(s) ==> p == pos
    decreases s.dequeue + Cap(s) - pos
  {
    if pos < s.dequeue {
      SameSlot(s, pos);
      p := WindowTicket(s, pos + Cap(s));
      if p == s.dequeue { SameSlot(s, s.dequeue); }
    } else if pos == s.dequeue + Cap(s) {
      SameSlot(s, s.dequeue);
      p := s.dequeue;
    } else {
      p := pos;
    }
  }

  /** Every atomic step keeps the invariant. */
  lemma StepInv<Item>(s: State<Item>, t: nat, a: Action<Item>)
    requires Inv(s) && Small(Step(s, t, a))
    ensures Inv(Step(s, t, a))
  {
    if t < |s.threads| {
      match s.threads[t]
      case Idle(_) => BeginInv(s, t, a);
      case PutCheck(_, _, _) => PutLoopInv(s, t, a);
      case PutReload(_, _) => PutLoopInv(s, t, a);
      case PutLoad(_, _, _) => PutLoadInv(s, t, a);
      case PutCas(_, _, _) => PutCasInv(s, t, a);
      case PutWrite(_, _) => PutWriteInv(s, t, a);
      case PutPublish(_, _) => PutPublishInv(s, t, a);
      case GetCheck(_, _) => GetLoopInv(s, t, a);
      case GetReload(_) => GetLoopInv(s, t, a);
      case GetLoad(_, _) => GetLoadInv(s, t, a);
      case GetCas(_, _) => GetCasInv(s, t, a);
      case GetRead(_) => GetReadInv(s, t, a);
      case GetClear(_, _) => GetClearInv(s, t, a);
      case GetRecycle(pos, _) => DeliverStep(s, t, pos, a);
      case LenSecond(q) => ControlStep(s, t, Idle(Length((q - s.dequeue) % WORD)));
    }
  }

  lemma BeginInv<Item>(s: State<Item>, t: nat, a: Action<Item>)
    requires Inv(s) && t < |s.threads| && s.threads[t].Idle?
    ensures Inv(Begin(s, t, a))
  {
    match a
    case StartPut(item, offer) => ControlStep(s, t, PutCheck(item, offer, s.queue));
    case StartPoll(timed) => ControlStep(s, t, GetCheck(timed, s.dequeue));
    case StartLen => ControlStep(s, t, LenSecond(s.queue));
    case Dispose => DisposeInv(s);
    case Go(_) =>
  }

  lemma DisposeInv<Item>(s: State<Item>)
    requires Inv(s)
    ensures Inv(s.(disposed := true))
  {
    var s' := s.(disposed := true);
    forall p: nat | s'.dequeue <= p < s'.queue ensures ClaimedTicket(s', p) { assert ClaimedTicket(s, p); }
    forall p: nat | s'.queue <= p < s'.dequeue + Cap(s') ensures OpenTicket(s', p) { assert OpenTicket(s, p); }
    forall u: nat | u < |s'.threads| ensures PcOk(s', s'.threads[u]) { PcFrame(s, s', s.threads[u]); }
  }

  lemma PutLoopInv<Item>(s: State<Item>, t: nat, a: Action<Item>)
    requires Inv(s) && t < |s.threads| && (s.threads[t].PutCheck? || s.threads[t].PutReload?)
    ensures Inv(Step(s, t, a))
  {
    assert PcOk(s, s.threads[t]);
    match s.threads[t]
    case PutCheck(item, offer, pos) =>
      ControlStep(s, t, if s.disposed then Idle(Disposed) else PutLoad(item, offer, pos));
    case PutReload(item, offer) =>
      ControlStep(s, t, if offer then Idle(Refused) else PutCheck(item, offer, s.queue));
  }

  /** The state a put loop moves to after loading a slot's position. */
  lemma PutLoadNext<Item>(s: State<Item>, item: Item, offer: bool, pos: nat) returns (pc: Pc<Item>)
    requires Counters(s) && Tickets(s) && pos <= s.queue
    ensures pc == PutLooked(item, offer, pos, (NodeAt(s, pos).position - pos) % WORD)
    ensures PcOk(s, pc)
  {
    PositionsSmall(s, pos);
    WordDifference(NodeAt(s, pos).position, pos);
    if NodeAt(s, pos).position == pos {
      PutLoadOk(s, item, offer, pos);
      pc := PutCas(item, offer, pos);
    } else {
      pc := PutReload(item, offer);
    }
  }

  lemma PutLoadInv<Item>(s: State<Item>, t: nat, a: Action<Item>)
    requires Inv(s) && t < |s.threads| && s.threads[t].PutLoad?
    ensures Inv(Step(s, t, a))
  {
    assert PcOk(s, s.threads[t]);
    var pc := PutLoadNext(s, s.threads[t].item, s.threads[t].offer, s.threads[t].pos);
    ControlStep(s, t, pc);
  }

  lemma PutCasInv<Item>(s: State<Item>, t: nat, a: Action<Item>)
    requires Inv(s) && t < |s.threads| && s.threads[t].PutCas? && Small(Step(s, t, a))
    ensures Inv(Step(s, t, a))
  {
    var pc := s.threads[t];
    assert PcOk(s, pc);
    if s.queue == pc.pos {
      PutClaimReady(s, t);
      PutClaimStep(s, t, pc.item);
    } else {
      ControlStep(s, t, if pc.offer then Idle(Refused) else PutCheck(pc.item, pc.offer, pc.pos));
    }
  }

  lemma PutWriteInv<Item>(s: State<Item>, t: nat, a: Action<Item>)
    requires Inv(s) && t < |s.threads| && s.threads[t].PutWrite?
    ensures Inv(Step(s, t, a))
  {
    var pc := s.threads[t];
    assert PcOk(s, pc);
    WriterStep(s, t, pc.pos, NodeAt(s, pc.pos).(data := Some(pc.item)), PutPublish(pc.item, pc.pos));
  }

  lemma PutPublishInv<Item>(s: State<Item>, t: nat, a: Action<Item>)
    requires Inv(s) && t < |s.threads| && s.threads[t].PutPublish?
    ensures Inv(Step(s, t, a))
  {
    var pos := s.threads[t].pos;
    assert PcOk(s, s.threads[t]);
    assert Inc(pos) == pos + 1;
    var n := Node(pos + 1, Some(s.threads[t].item));
    WriterStep(s, t, pos, n, Idle(Stored));
    assert Step(s, t, a) == Goto(SetNode(s, pos, n), t, Idle(Stored));
  }

  lemma GetLoopInv<Item>(s: State<Item>, t: nat, a: Action<Item>)
    requires Inv(s) && t < |s.threads| && (s.threads[t].GetCheck? || s.threads[t].GetReload?)
    ensures Inv(Step(s, t, a))
  {
    assert PcOk(s, s.threads[t]);
    match s.threads[t]
    case GetCheck(timed, pos) =>
      ControlStep(s, t, if s.disposed then Idle(Disposed) else GetLoad(timed, pos));
    case GetReload(timed) =>
      ControlStep(s, t, if timed && a == Go(true) then Idle(TimedOut) else GetCheck(timed, s.dequeue));
  }

  lemma GetLoadNext<Item>(s: State<Item>, timed: bool, pos: nat) returns (pc: Pc<Item>)
    requires Counters(s) && Tickets(s) && pos <= s.dequeue
    ensures pc == GetLooked<Item>(timed, pos, (NodeAt(s, pos).position - Inc(pos)) % WORD)
    ensures PcOk(s, pc)
  {
    PositionsSmall(s, pos);
    WordDifference(NodeAt(s, pos).position, pos + 1);
    if NodeAt(s, pos).position == pos + 1 {
      GetLoadOk(s, timed, pos);
      pc := GetCas(timed, pos);
    } else {
      pc := GetReload(timed);
    }
  }

  lemma GetLoadInv<Item>(s: State<Item>, t: nat, a: Action<Item>)
    requires Inv(s) && t < |s.threads| && s.threads[t].GetLoad?
    ensures Inv(Step(s, t, a))
  {
    assert PcOk(s, s.threads[t]);
    var pc := GetLoadNext(s, s.threads[t].timed, s.threads[t].pos);
    ControlStep(s, t, pc);
  }

  lemma GetCasInv<Item>(s: State<Item>, t: nat, a: Action<Item>)
    requires Inv(s) && t < |s.threads| && s.threads[t].GetCas?
    ensures Inv(Step(s, t, a))
  {
    var pc := s.threads[t];
    assert PcOk(s, pc);
    if s.dequeue == pc.pos {
      GetClaimReady(s, t);
      GetClaimStep(s, t);
    } else {
      ControlStep(s, t, if pc.timed && a == Go(true) then Idle(TimedOut) else GetCheck(pc.timed, pc.pos));
    }
  }

  lemma GetReadInv<Item>(s: State<Item>, t: nat, a: Action<Item>)
    requires Inv(s) && t < |s.threads| && s.threads[t].GetRead?
    ensures Inv(Step(s, t, a))
  {
    var pos := s.threads[t].pos;
    assert PcOk(s, s.threads[t]);
    ControlStep(s, t, GetClear(pos, NodeAt(s, pos).data));
  }

  lemma GetClearInv<Item>(s: State<Item>, t: nat, a: Action<Item>)
    requires Inv(s) && t < |s.threads| && s.threads[t].GetClear?
    ensures Inv(Step(s, t, a))
  {
    var pc := s.threads[t];
    assert PcOk(s, pc);
    DrainerStep(s, t, pc.pos, NodeAt(s, pc.pos).(data := None), GetRecycle(pc.pos, pc.data));
  }
}
