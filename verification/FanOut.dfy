/** Publisher-to-player fan-out as interleaved steps: the mutex, the flag and the channel of
    pkg/rtmp/server/player.go under the player table of pkg/rtmp/server/session.go.

    The publisher ranges over the player table once per packet. Any number of other threads, the
    players' own and the expiry callback, delete players. Packets are numbered in order of
    publication. */
module FanOut {

  /** Who holds a player's mutex. */
  datatype Holder = Free | Publisher | Closer(thread: nat)

  /** `since` counts the packets published before the player was added. */
  datatype Player = Player(key: nat, since: nat, closed: bool, chanClosed: bool, closes: nat,
                           buf: seq<nat>, got: seq<nat>, lock: Holder)

  datatype BuffStage = AtLock | AtCheck | AtSend | AtUnlock

  /** Where the publisher is. `must` holds the keys present ever since the range began, `seen`
      those visited: a range may end once it has visited all it must. */
  datatype PubPc =
    | Idle
    | Ranging(must: set<nat>, seen: set<nat>)
    | Buffering(must: set<nat>, seen: set<nat>, stage: BuffStage, target: nat)

  datatype CloseStage = Check | SetFlag | CloseChan | Unlock | Delete
  datatype ClosePc = Closing(stage: CloseStage, target: nat)

  /** `table` is the session's player table, `at` every player ever made. `panicked` records a
      send on, or a close of, a closed channel. */
  datatype State = State(cap: nat, pub: nat, pc: PubPc, table: map<nat, nat>, at: map<nat, Player>,
                         closers: map<nat, ClosePc>, panicked: bool)

  datatype Action =
    | Publish
    | Visit(key: nat)
    | EndRange
    | Buff                      // the publisher's next step on its current player
    | Receive(player: nat)
    | Add(player: nat, key: nat)
    | BeginDelete(thread: nat, player: nat)
    | Close(thread: nat)        // a deleting thread's next step

  function Init(cap: nat): State { State(cap, 0, Idle, map[], map[], map[], false) }

  // ---------------------------------------------------------------- steps

  function Put(s: State, p: nat, x: Player): State { s.(at := s.at[p := x]) }

  /** The packet being fanned out. */
  function Current(s: State): nat { if s.pub == 0 then 0 else s.pub - 1 }

  function BuffStep(s: State): State
    requires s.pc.Buffering?
  {
    var p := s.pc.target;
    if p !in s.at then s else
    var x := s.at[p];
    match s.pc.stage
    case AtLock =>
      if x.lock.Free? then Put(s, p, x.(lock := Publisher)).(pc := s.pc.(stage := AtCheck)) else s
    case AtCheck => s.(pc := s.pc.(stage := if x.closed then AtUnlock else AtSend))
    case AtSend =>
      if x.chanClosed then s.(panicked := true)
      else if |x.buf| < s.cap then Put(s, p, x.(buf := x.buf + [Current(s)])).(pc := s.pc.(stage := AtUnlock))
      else s
    case AtUnlock => Put(s, p, x.(lock := Free)).(pc := Ranging(s.pc.must, s.pc.seen))
  }

  function Forget(pc: PubPc, key: nat): PubPc {
    match pc
    case Idle => Idle
    case Ranging(must, seen) => Ranging(must - {key}, seen)
    case Buffering(must, seen, stage, target) => Buffering(must - {key}, seen, stage, target)
  }

  function CloseStep(s: State, t: nat): State
    requires t in s.closers
  {
    var p := s.closers[t].target;
    if p !in s.at then s else
    var x := s.at[p];
    match s.closers[t].stage
    case Check => s.(closers := s.closers[t := Closing(if x.closed then Unlock else SetFlag, p)])
    case SetFlag => Put(s, p, x.(closed := true)).(closers := s.closers[t := Closing(CloseChan, p)])
    case CloseChan =>
      if x.chanClosed then s.(panicked := true)
      else Put(s, p, x.(chanClosed := true, closes := x.closes + 1)).(closers := s.closers[t := Closing(Unlock, p)])
    case Unlock => Put(s, p, x.(lock := Free)).(closers := s.closers[t := Closing(Delete, p)])
    case Delete => s.(table := s.table - {x.key}, pc := Forget(s.pc, x.key), closers := s.closers - {t})
  }

  /** One step; a step that is blocked or makes no sense leaves the state alone. */
  function Next(s: State, a: Action): State {
    match a
    case Publish => if s.pc.Idle? then s.(pub := s.pub + 1, pc := Ranging(s.table.Keys, {})) else s
    case Visit(k) =>
      if s.pc.Ranging? && k in s.table && k !in s.pc.seen
      then s.(pc := Buffering(s.pc.must, s.pc.seen + {k}, AtLock, s.table[k])) else s
    case EndRange => if s.pc.Ranging? && s.pc.must <= s.pc.seen then s.(pc := Idle) else s
    case Buff => if s.pc.Buffering? then BuffStep(s) else s
    case Receive(p) =>
      if p in s.at && s.at[p].buf != []
      then Put(s, p, s.at[p].(buf := s.at[p].buf[1..], got := s.at[p].got + [s.at[p].buf[0]])) else s
    case Add(p, k) =>
      if p in s.at then s
      else s.(at := s.at[p := Player(k, s.pub, false, false, 0, [], [], Free)], table := s.table[k := p])
    case BeginDelete(t, p) =>
      if t !in s.closers && p in s.at && s.at[p].lock.Free?
      then Put(s, p, s.at[p].(lock := Closer(t))).(closers := s.closers[t := Closing(Check, p)]) else s
    case Close(t) => if t in s.closers then CloseStep(s, t) else s
  }

  function After(s: State, run: seq<Action>): State {
    if run == [] then s else Next(After(s, run[..|run| - 1]), run[|run| - 1])
  }

  // ---------------------------------------------------------------- invariant

  function History(x: Player): seq<nat> { x.got + x.buf }

  predicate Contiguous(h: seq<nat>) { forall i :: 0 < i < |h| ==> h[i] == h[i - 1] + 1 }

  /** The last packet a player has, or the one before those it waits for. */
  function Last(x: Player): int {
    if History(x) == [] then x.since - 1 else History(x)[|History(x)| - 1]
  }

  /** In the table under its own key, and open. */
  predicate Live(s: State, p: nat)
    requires p in s.at
  {
    s.at[p].key in s.table && s.table[s.at[p].key] == p && !s.at[p].closed
  }

  /** How a player stands to the current range: about to be sent the packet, past it, or not
      visited yet, and then perhaps certain to be. */
  datatype Place = Sending | Past | Waiting(certain: bool)

  function PlaceOf(s: State, p: nat): Place
    requires p in s.at
  {
    if s.pc.Buffering? && s.pc.target == p && s.pc.stage != AtUnlock then Sending
    else if s.pc.Idle? || s.at[p].key in s.pc.seen then Past
    else Waiting(s.at[p].key in s.pc.must)
  }

  /** A player has every packet up to the one before the current one: it is due the current
      one, or it was added after the range began. */
  predicate Due(x: Player, pub: nat) { Last(x) == pub - 2 || AddedLate(x, pub) }

  predicate AddedLate(x: Player, pub: nat) { History(x) == [] && x.since == pub }

  predicate CaughtUp(x: Player, pub: nat) { Last(x) == pub - 1 }

  predicate PacketsOk(x: Player, cap: nat, pub: nat) {
    && Contiguous(History(x)) && |x.buf| <= cap && x.since <= pub
    && (History(x) != [] ==> x.since - 1 <= History(x)[0] <= x.since && Last(x) < pub)
  }

  predicate PlaceOk(x: Player, pub: nat, place: Place, live: bool) {
    match place
    case Sending => !x.closed ==> Due(x, pub)
    case Past => live ==> CaughtUp(x, pub)
    case Waiting(certain) => live ==> (certain && Last(x) == pub - 2) || AddedLate(x, pub)
  }

  /** The flag goes up before the channel closes, which happens once; the mutex is held by the
      thread that says so. */
  predicate HolderOk(s: State, p: nat)
    requires p in s.at
  {
    var x := s.at[p];
    && x.closes == (if x.chanClosed then 1 else 0)
    && (x.chanClosed ==> x.closed)
    && (x.lock.Publisher? ==> s.pc.Buffering? && s.pc.target == p && s.pc.stage != AtLock)
    && (x.lock.Closer? ==> Deletes(s, x.lock.thread, p))
    && (x.closed && !x.chanClosed ==> x.lock.Closer? && s.closers[x.lock.thread].stage == CloseChan)
  }

  predicate Deletes(s: State, t: nat, p: nat) {
    t in s.closers && s.closers[t].target == p && s.closers[t].stage != Delete
  }

  /** A thread inside a player's critical section holds its mutex. */
  predicate CloserOk(s: State, t: nat)
    requires t in s.closers
  {
    var c := s.closers[t];
    && c.target in s.at
    && (c.stage != Delete ==> s.at[c.target].lock == Closer(t))
    && (c.stage == SetFlag ==> !s.at[c.target].closed)
    && (c.stage == CloseChan ==> s.at[c.target].closed && !s.at[c.target].chanClosed)
  }

  predicate PublisherOk(s: State) {
    && (!s.pc.Idle? ==> 0 < s.pub)
    && (s.pc.Buffering? ==>
          && s.pc.target in s.at && s.at[s.pc.target].key in s.pc.seen
          && (s.pc.stage != AtLock ==> s.at[s.pc.target].lock == Publisher)
          && (s.pc.stage == AtSend ==> !s.at[s.pc.target].closed))
  }

  predicate KeyOk(s: State, k: nat)
    requires k in s.table
  {
    s.table[k] in s.at && s.at[s.table[k]].key == k
  }

  predicate PlayerOk(s: State, p: nat)
    requires p in s.at
  {
    HolderOk(s, p) && PacketsOk(s.at[p], s.cap, s.pub) && PlaceOk(s.at[p], s.pub, PlaceOf(s, p), Live(s, p))
  }

  predicate Inv(s: State) {
    && !s.panicked && 0 < s.cap && PublisherOk(s)
    && (forall t :: t in s.closers ==> CloserOk(s, t))
    && (forall k :: k in s.table ==> KeyOk(s, k))
    && (forall p :: p in s.at ==> PlayerOk(s, p))
  }

  // ---------------------------------------------------------------- every step keeps it

  lemma PublishKeeps(s: State)
    requires Inv(s) && s.pc.Idle?
    ensures Inv(Next(s, Publish))
  {
    hide PacketsOk;
    var s' := Next(s, Publish);
    forall q | q in s.at ensures PlayerOk(s', q) {
      assert PlayerOk(s, q);
      PubGrows(s.at[q], s.cap, s.pub);
    }
  }

  lemma PubGrows(x: Player, cap: nat, pub: nat)
    requires PacketsOk(x, cap, pub)
    ensures PacketsOk(x, cap, pub + 1)
  {
  }

  lemma VisitKeeps(s: State, k: nat)
    requires Inv(s) && s.pc.Ranging? && k in s.table && k !in s.pc.seen
    ensures Inv(Next(s, Visit(k)))
  {
    hide PacketsOk;
    var s' := Next(s, Visit(k));
    assert KeyOk(s, k);
    forall q | q in s.at ensures PlayerOk(s', q) {
      assert PlayerOk(s, q);
    }
  }

  lemma EndRangeKeeps(s: State)
    requires Inv(s) && s.pc.Ranging? && s.pc.must <= s.pc.seen
    ensures Inv(Next(s, EndRange))
  {
    hide PacketsOk;
    var s' := Next(s, EndRange);
    forall q | q in s.at ensures PlayerOk(s', q) {
      assert PlayerOk(s, q);
    }
  }

  /** Packets move from the buffer to the player without changing their run. */
  lemma SameHistory(x: Player, y: Player, cap: nat, pub: nat, place: Place, live: bool)
    requires History(x) == History(y) && |y.buf| <= |x.buf| && x.since == y.since && x.closed == y.closed
    requires PacketsOk(x, cap, pub) && PlaceOk(x, pub, place, live)
    ensures PacketsOk(y, cap, pub) && PlaceOk(y, pub, place, live)
  {
  }

  lemma Received(x: Player)
    requires x.buf != []
    ensures History(x.(buf := x.buf[1..], got := x.got + [x.buf[0]])) == History(x)
  {
  }

  lemma ReceiveKeeps(s: State, p: nat)
    requires Inv(s) && p in s.at && s.at[p].buf != []
    ensures Inv(Next(s, Receive(p)))
  {
    hide PacketsOk, PlaceOk, History;
    var s' := Next(s, Receive(p));
    var x, y := s.at[p], s'.at[p];
    Received(x);
    assert PlayerOk(s, p);
    SameHistory(x, y, s.cap, s.pub, PlaceOf(s, p), Live(s, p));
    SameControl(s, s', p);
  }

  /** Changing what a player has read or holds in its buffer changes nothing else. */
  lemma SameControl(s: State, s': State, p: nat)
    requires Inv(s) && p in s.at && p in s'.at && s' == s.(at := s.at[p := s'.at[p]])
    requires s'.at[p] == s.at[p].(buf := s'.at[p].buf, got := s'.at[p].got)
    requires PacketsOk(s'.at[p], s.cap, s.pub) && PlaceOk(s'.at[p], s.pub, PlaceOf(s, p), Live(s, p))
    ensures Inv(s')
  {
    hide PacketsOk, PlaceOk;
    forall q | q in s.at ensures PlayerOk(s', q) { assert PlayerOk(s, q); }
    forall t | t in s.closers ensures CloserOk(s', t) { assert CloserOk(s, t); }
    forall k | k in s.table ensures KeyOk(s', k) { assert KeyOk(s, k); }
  }

  lemma NewPlayer(k: nat, cap: nat, pub: nat, place: Place, live: bool)
    requires place.Past? || (place.Waiting? && 0 < pub)
    ensures var x := Player(k, pub, false, false, 0, [], [], Free);
            PacketsOk(x, cap, pub) && PlaceOk(x, pub, place, live)
  {
  }

  lemma AddKeeps(s: State, p: nat, k: nat)
    requires Inv(s) && p !in s.at
    ensures Inv(Next(s, Add(p, k)))
  {
    hide PacketsOk;
    var s' := Next(s, Add(p, k));
    NewPlayer(k, s.cap, s.pub, PlaceOf(s', p), true);
    forall q | q in s'.at ensures PlayerOk(s', q) {
      if q != p { assert PlayerOk(s, q); }
    }
    forall t | t in s.closers ensures CloserOk(s', t) { assert CloserOk(s, t); }
    forall j | j in s'.table ensures KeyOk(s', j) { if j != k { assert KeyOk(s, j); } }
  }

  /** The mutex and the channel's end are no part of a player's run. */
  lemma SameRun(x: Player, y: Player, cap: nat, pub: nat, place: Place, live: bool)
    requires y == x.(lock := y.lock, chanClosed := y.chanClosed, closes := y.closes)
    requires PacketsOk(x, cap, pub) && PlaceOk(x, pub, place, live)
    ensures PacketsOk(y, cap, pub) && PlaceOk(y, pub, place, live)
  {
    assert History(y) == History(x);
    hide History, PacketsOk, PlaceOk;
    SameHistory(x, y, cap, pub, place, live);
  }

  lemma BeginDeleteKeeps(s: State, t: nat, p: nat)
    requires Inv(s) && t !in s.closers && p in s.at && s.at[p].lock.Free?
    ensures Inv(Next(s, BeginDelete(t, p)))
  {
    hide PacketsOk, PlaceOk;
    var s' := Next(s, BeginDelete(t, p));
    assert PlayerOk(s, p);
    SameRun(s.at[p], s'.at[p], s.cap, s.pub, PlaceOf(s, p), Live(s, p));
    forall q | q in s.at ensures PlayerOk(s', q) { assert PlayerOk(s, q); }
    forall u | u in s'.closers ensures CloserOk(s', u) { if u != t { assert CloserOk(s, u); } }
    forall k | k in s.table ensures KeyOk(s', k) { assert KeyOk(s, k); }
  }

  // A deleting thread, stage by stage.

  lemma CheckKeeps(s: State, t: nat)
    requires Inv(s) && t in s.closers && s.closers[t].stage == Check
    ensures Inv(CloseStep(s, t))
  {
    hide PacketsOk, PlaceOk;
    var s' := CloseStep(s, t);
    assert CloserOk(s, t);
    forall q | q in s.at ensures PlayerOk(s', q) { assert PlayerOk(s, q); }
    forall u | u in s'.closers ensures CloserOk(s', u) { assert CloserOk(s, u); }
    forall k | k in s.table ensures KeyOk(s', k) { assert KeyOk(s, k); }
  }

  /** A closed player is live no more. */
  lemma ClosedOk(x: Player, cap: nat, pub: nat, place: Place, live: bool)
    requires PacketsOk(x, cap, pub) && PlaceOk(x, pub, place, live)
    ensures PacketsOk(x.(closed := true), cap, pub) && PlaceOk(x.(closed := true), pub, place, false)
  {
  }

  lemma SetFlagKeeps(s: State, t: nat)
    requires Inv(s) && t in s.closers && s.closers[t].stage == SetFlag
    ensures Inv(CloseStep(s, t))
  {
    hide PacketsOk, PlaceOk;
    var s' := CloseStep(s, t);
    assert CloserOk(s, t);
    var p := s.closers[t].target;
    assert PlayerOk(s, p);
    ClosedOk(s.at[p], s.cap, s.pub, PlaceOf(s, p), Live(s, p));
    forall q | q in s.at ensures PlayerOk(s', q) { assert PlayerOk(s, q); }
    forall u | u in s'.closers ensures CloserOk(s', u) { assert CloserOk(s, u); }
    forall k | k in s.table ensures KeyOk(s', k) { assert KeyOk(s, k); }
  }

  lemma CloseChanKeeps(s: State, t: nat)
    requires Inv(s) && t in s.closers && s.closers[t].stage == CloseChan
    ensures Inv(CloseStep(s, t))
  {
    hide PacketsOk, PlaceOk;
    var s' := CloseStep(s, t);
    assert CloserOk(s, t);
    var p := s.closers[t].target;
    assert PlayerOk(s, p);
    SameRun(s.at[p], s'.at[p], s.cap, s.pub, PlaceOf(s, p), Live(s, p));
    forall q | q in s.at ensures PlayerOk(s', q) { assert PlayerOk(s, q); }
    forall u | u in s'.closers ensures CloserOk(s', u) { assert CloserOk(s, u); }
    forall k | k in s.table ensures KeyOk(s', k) { assert KeyOk(s, k); }
  }

  lemma UnlockKeeps(s: State, t: nat)
    requires Inv(s) && t in s.closers && s.closers[t].stage == Unlock
    ensures Inv(CloseStep(s, t))
  {
    hide PacketsOk, PlaceOk;
    var s' := CloseStep(s, t);
    assert CloserOk(s, t);
    var p := s.closers[t].target;
    assert PlayerOk(s, p);
    SameRun(s.at[p], s'.at[p], s.cap, s.pub, PlaceOf(s, p), Live(s, p));
    forall q | q in s.at ensures PlayerOk(s', q) { assert PlayerOk(s, q); }
    forall u | u in s'.closers ensures CloserOk(s', u) { assert CloserOk(s, u); }
    forall k | k in s.table ensures KeyOk(s', k) { assert KeyOk(s, k); }
  }

  lemma DeleteKeeps(s: State, t: nat)
    requires Inv(s) && t in s.closers && s.closers[t].stage == Delete
    ensures Inv(CloseStep(s, t))
  {
    hide PacketsOk;
    var s' := CloseStep(s, t);
    assert CloserOk(s, t);
    forall q | q in s.at ensures PlayerOk(s', q) { assert PlayerOk(s, q); }
    forall u | u in s'.closers ensures CloserOk(s', u) { assert CloserOk(s, u); }
    forall k | k in s'.table ensures KeyOk(s', k) { assert KeyOk(s, k); }
  }

  // The publisher on one player, stage by stage.

  lemma LockKeeps(s: State)
    requires Inv(s) && s.pc.Buffering? && s.pc.stage == AtLock
    ensures Inv(BuffStep(s))
  {
    hide PacketsOk, PlaceOk;
    var s' := BuffStep(s);
    var p := s.pc.target;
    assert PlayerOk(s, p);
    SameRun(s.at[p], s'.at[p], s.cap, s.pub, PlaceOf(s, p), Live(s, p));
    forall q | q in s.at ensures PlayerOk(s', q) { assert PlayerOk(s, q); }
    forall t | t in s.closers ensures CloserOk(s', t) { assert CloserOk(s, t); }
    forall k | k in s.table ensures KeyOk(s', k) { assert KeyOk(s, k); }
  }

  lemma BuffCheckKeeps(s: State)
    requires Inv(s) && s.pc.Buffering? && s.pc.stage == AtCheck
    ensures Inv(BuffStep(s))
  {
    hide PacketsOk;
    var s' := BuffStep(s);
    var p := s.pc.target;
    assert PlayerOk(s, p);
    forall q | q in s.at ensures PlayerOk(s', q) { assert PlayerOk(s, q); }
    forall t | t in s.closers ensures CloserOk(s', t) { assert CloserOk(s, t); }
    forall k | k in s.table ensures KeyOk(s', k) { assert KeyOk(s, k); }
  }

  /** The packet a player is due continues its run. */
  lemma SentOk(x: Player, cap: nat, pub: nat, live: bool)
    requires 0 < pub && PacketsOk(x, cap, pub) && Due(x, pub) && |x.buf| < cap
    ensures var y := x.(buf := x.buf + [pub - 1]);
            PacketsOk(y, cap, pub) && PlaceOk(y, pub, Past, live)
  {
    var y := x.(buf := x.buf + [pub - 1]);
    assert History(y) == History(x) + [pub - 1];
  }

  lemma SendKeeps(s: State)
    requires Inv(s) && s.pc.Buffering? && s.pc.stage == AtSend
    ensures Inv(BuffStep(s))
  {
    hide PacketsOk, PlaceOk, Due, History, Last;
    var s' := BuffStep(s);
    var p := s.pc.target;
    assert PlayerOk(s, p);
    if |s.at[p].buf| < s.cap {
      assert Due(s.at[p], s.pub) by { DueNow(s.at[p], s.pub, Live(s, p)); }
      SentOk(s.at[p], s.cap, s.pub, Live(s, p));
      forall q | q in s.at ensures PlayerOk(s', q) { assert PlayerOk(s, q); }
      forall t | t in s.closers ensures CloserOk(s', t) { assert CloserOk(s, t); }
      forall k | k in s.table ensures KeyOk(s', k) { assert KeyOk(s, k); }
    }
  }

  lemma DueNow(x: Player, pub: nat, live: bool)
    requires PlaceOk(x, pub, Sending, live) && !x.closed
    ensures Due(x, pub)
  {
  }

  lemma ReleaseKeeps(s: State)
    requires Inv(s) && s.pc.Buffering? && s.pc.stage == AtUnlock
    ensures Inv(BuffStep(s))
  {
    hide PacketsOk, PlaceOk;
    var s' := BuffStep(s);
    var p := s.pc.target;
    assert PlayerOk(s, p);
    SameRun(s.at[p], s'.at[p], s.cap, s.pub, PlaceOf(s, p), Live(s, p));
    forall q | q in s.at ensures PlayerOk(s', q) { assert PlayerOk(s, q); }
    forall t | t in s.closers ensures CloserOk(s', t) { assert CloserOk(s, t); }
    forall k | k in s.table ensures KeyOk(s', k) { assert KeyOk(s, k); }
  }

  lemma StepInv(s: State, a: Action)
    requires Inv(s)
    ensures Inv(Next(s, a)) && Next(s, a).cap == s.cap
  {
    hide Inv;
    match a
    case Publish => if s.pc.Idle? { PublishKeeps(s); }
    case Visit(k) => if s.pc.Ranging? && k in s.table && k !in s.pc.seen { VisitKeeps(s, k); }
    case EndRange => if s.pc.Ranging? && s.pc.must <= s.pc.seen { EndRangeKeeps(s); }
    case Buff =>
      if s.pc.Buffering? {
        match s.pc.stage
        case AtLock => LockKeeps(s);
        case AtCheck => BuffCheckKeeps(s);
        case AtSend => SendKeeps(s);
        case AtUnlock => ReleaseKeeps(s);
      }
    case Receive(p) => if p in s.at && s.at[p].buf != [] { ReceiveKeeps(s, p); }
    case Add(p, k) => if p !in s.at { AddKeeps(s, p, k); }
    case BeginDelete(t, p) =>
      if t !in s.closers && p in s.at && s.at[p].lock.Free? { BeginDeleteKeeps(s, t, p); }
    case Close(t) =>
      if t in s.closers {
        match s.closers[t].stage
        case Check => CheckKeeps(s, t);
        case SetFlag => SetFlagKeeps(s, t);
        case CloseChan => CloseChanKeeps(s, t);
        case Unlock => UnlockKeeps(s, t);
        case Delete => DeleteKeeps(s, t);
      }
  }

  // ---------------------------------------------------------------- whole runs

  lemma {:induction false} RunInv(cap: nat, run: seq<Action>)
    requires 0 < cap
    ensures Inv(After(Init(cap), run)) && After(Init(cap), run).cap == cap
    decreases |run|
  {
    if run != [] {
      RunInv(cap, run[..|run| - 1]);
      StepInv(After(Init(cap), run[..|run| - 1]), run[|run| - 1]);
    }
  }

  lemma ContiguousAt(h: seq<nat>, i: nat)
    requires Contiguous(h) && i < |h|
    ensures h[i] == h[0] + i
  {
    if i > 0 { ContiguousAt(h, i - 1); }
  }

  /** Over every interleaving: no send on a closed channel and no second close, no buffer over
      its capacity, and what a player has received followed by what is buffered for it is one
      run of published packets without gap, repetition or reordering. */
  lemma FanOutSafe(cap: nat, run: seq<Action>, p: nat)
    requires 0 < cap && p in After(Init(cap), run).at
    ensures var s := After(Init(cap), run);
            var x := s.at[p];
            && !s.panicked && x.closes <= 1 && |x.buf| <= cap
            && (forall i :: 0 <= i < |x.got + x.buf| ==> (x.got + x.buf)[i] == (x.got + x.buf)[0] + i < s.pub)
  {
    RunInv(cap, run);
    var s := After(Init(cap), run);
    var x := s.at[p];
    assert PlayerOk(s, p);
    var h := History(x);
    forall i | 0 <= i < |h| ensures h[i] == h[0] + i < s.pub {
      ContiguousAt(h, i);
      ContiguousAt(h, |h| - 1);
    }
  }

  /** Between ranges an open player in the table has missed nothing: it has every packet from
      the first one published after it was added, and at most one earlier. */
  lemma NothingMissed(cap: nat, run: seq<Action>, p: nat) returns (first: nat)
    requires 0 < cap
    requires var s := After(Init(cap), run); s.pc.Idle? && p in s.at && Live(s, p)
    ensures var s := After(Init(cap), run);
            var h := s.at[p].got + s.at[p].buf;
            && s.at[p].since - 1 <= first <= s.at[p].since && |h| == s.pub - first
            && forall i :: 0 <= i < |h| ==> h[i] == first + i
  {
    RunInv(cap, run);
    var s := After(Init(cap), run);
    var x := s.at[p];
    assert PlayerOk(s, p);
    Complete(x, s.cap, s.pub);
    first := if History(x) == [] then x.since else History(x)[0];
  }

  lemma Complete(x: Player, cap: nat, pub: nat)
    requires PacketsOk(x, cap, pub) && CaughtUp(x, pub)
    ensures var h := History(x);
            var first := if h == [] then x.since else h[0];
            |h| == pub - first && forall i :: 0 <= i < |h| ==> h[i] == first + i
  {
    var h := History(x);
    forall i | 0 <= i < |h| ensures h[i] == h[0] + i { ContiguousAt(h, i); }
  }

  /** The threads inside a player's critical section: at most one. */
  lemma MutexExclusive(cap: nat, run: seq<Action>, t: nat, u: nat, p: nat)
    requires 0 < cap
    requires var s := After(Init(cap), run); Deletes(s, t, p) && Deletes(s, u, p)
    ensures t == u
    ensures var pc := After(Init(cap), run).pc; !(pc.Buffering? && pc.target == p && pc.stage != AtLock)
  {
    RunInv(cap, run);
    var s := After(Init(cap), run);
    assert CloserOk(s, t) && CloserOk(s, u);
  }

  /** Closing is final: nothing is buffered for a closed player, and it can still read what was. */
  lemma ClosedIsFinal(s: State, a: Action, p: nat)
    requires Inv(s) && p in s.at && s.at[p].closed
    ensures var s' := Next(s, a);
            p in s'.at && s'.at[p].closed && History(s'.at[p]) == History(s.at[p]) && s.at[p].got <= s'.at[p].got
  {
    assert PublisherOk(s);
    hide Inv, PublisherOk, History, BuffStep, CloseStep;
    if a.Publish? || a.Visit? || a.EndRange? || a.Add? {
      QuietStep(s, a, p);
    } else if a.Receive? {
      if a.player == p && s.at[p].buf != [] { Received(s.at[p]); }
    } else if a.Close? {
      if a.thread in s.closers { SameHistoryOnClose(s, a.thread, p); }
    } else if a.Buff? {
      if s.pc.Buffering? { SameHistoryOnBuff(s, p); }
    } else if a.BeginDelete? {
      HistoryOfRest(s.at[p]);
    }
  }

  lemma QuietStep(s: State, a: Action, p: nat)
    requires p in s.at && (a.Publish? || a.Visit? || a.EndRange? || a.Add?)
    ensures p in Next(s, a).at && Next(s, a).at[p] == s.at[p]
  {
  }

  lemma HistoryOfRest(x: Player)
    ensures forall h :: History(x.(lock := h)) == History(x)
  {
  }

  lemma SameHistoryOnClose(s: State, t: nat, p: nat)
    requires p in s.at && s.at[p].closed && t in s.closers
    ensures var s' := CloseStep(s, t);
            p in s'.at && s'.at[p].closed && History(s'.at[p]) == History(s.at[p]) && s.at[p].got <= s'.at[p].got
  {
  }

  lemma SameHistoryOnBuff(s: State, p: nat)
    requires p in s.at && s.at[p].closed && s.pc.Buffering? && PublisherOk(s)
    ensures var s' := BuffStep(s);
            p in s'.at && s'.at[p].closed && History(s'.at[p]) == History(s.at[p]) && s.at[p].got <= s'.at[p].got
  {
  }
}
