/** What the fan-out's operations achieve: an added player is reached, one round delivers one
    packet to everyone, a deletion removes its player, and a reader gets what was buffered. */
module FanOutProgress {
  import opened FanOut

  /** No two players ever made share a key. */
  predicate OwnKeys(s: State) {
    forall p, q :: p in s.at && q in s.at && s.at[p].key == s.at[q].key ==> p == q
  }

  /** A deleting thread has closed its target before it goes on to remove it. */
  predicate ClosesFirst(s: State) { forall t :: t in s.closers ==> ClosedFirst(s, t) }

  predicate ClosedFirst(s: State, t: nat)
    requires t in s.closers
  {
    var c := s.closers[t];
    c.stage.Check? || c.stage.SetFlag? || (c.target in s.at && s.at[c.target].closed)
  }

  predicate OpenLive(s: State) { forall p :: p in s.at && !s.at[p].closed ==> Live(s, p) }

  /** The players of s are still there, under their keys, and the closed ones still closed. */
  predicate Extends(s: State, s': State) {
    && s.at.Keys <= s'.at.Keys
    && forall p :: p in s.at ==> s'.at[p].key == s.at[p].key && (s.at[p].closed ==> s'.at[p].closed)
  }

  lemma StepExtends(s: State, a: Action)
    ensures Extends(s, Next(s, a))
  {
    hide BuffStep, CloseStep;
    if a.Buff? && s.pc.Buffering? {
      BuffExtends(s);
    } else if a.Close? && a.thread in s.closers {
      CloseExtends(s, a.thread);
    }
  }

  lemma BuffExtends(s: State)
    requires s.pc.Buffering?
    ensures Extends(s, BuffStep(s)) && BuffStep(s).table == s.table && BuffStep(s).closers == s.closers
    ensures BuffStep(s).at.Keys == s.at.Keys
  {
    if s.pc.target in s.at {
      match s.pc.stage
      case AtLock =>
      case AtCheck =>
      case AtSend =>
      case AtUnlock =>
    }
  }

  lemma CloseExtends(s: State, t: nat)
    requires t in s.closers
    ensures Extends(s, CloseStep(s, t)) && CloseStep(s, t).at.Keys == s.at.Keys
  {
  }

  lemma SameTable(s: State, s': State)
    requires OpenLive(s) && Extends(s, s') && s'.at.Keys == s.at.Keys && s'.table == s.table
    ensures OpenLive(s')
  {
  }

  lemma SameClosers(s: State, s': State)
    requires ClosesFirst(s) && Extends(s, s') && s'.closers == s.closers
    ensures ClosesFirst(s')
  {
  }

  lemma StepOpenLive(s: State, a: Action)
    requires Inv(s) && ClosesFirst(s) && OpenLive(s) && OwnKeys(Next(s, a))
    ensures ClosesFirst(Next(s, a)) && OpenLive(Next(s, a))
  {
    StepExtends(s, a);
    hide Inv, BuffStep, CloseStep, Extends, ClosesFirst, OpenLive, OwnKeys;
    var s' := Next(s, a);
    if a.Add? {
      AddOpenLive(s, a.player, a.key);
    } else if a.BeginDelete? {
      SameTable(s, s');
      BeginClosesFirst(s, a.thread, a.player);
    } else if a.Close? && a.thread in s.closers {
      CloseOpenLive(s, a.thread);
      CloseClosesFirst(s, a.thread);
    } else {
      if a.Buff? && s.pc.Buffering? { BuffExtends(s); }
      SameTable(s, s');
      SameClosers(s, s');
    }
  }

  lemma AddOpenLive(s: State, p: nat, k: nat)
    requires ClosesFirst(s) && OpenLive(s) && OwnKeys(Next(s, Add(p, k)))
    ensures ClosesFirst(Next(s, Add(p, k))) && OpenLive(Next(s, Add(p, k)))
  {
    var s' := Next(s, Add(p, k));
    if p !in s.at {
      forall q | q in s'.at && !s'.at[q].closed ensures Live(s', q) {
        if q != p { assert Live(s, q) && s'.at[q].key != s'.at[p].key; }
      }
    }
  }

  lemma BeginClosesFirst(s: State, t: nat, p: nat)
    requires ClosesFirst(s)
    ensures ClosesFirst(Next(s, BeginDelete(t, p)))
  {
  }

  /** Only the last stage takes anything out of the table: what its target stood under. */
  lemma CloseOpenLive(s: State, t: nat)
    requires Inv(s) && ClosesFirst(s) && OpenLive(s) && t in s.closers && OwnKeys(CloseStep(s, t))
    ensures OpenLive(CloseStep(s, t))
  {
    CloseExtends(s, t);
    CloseTable(s, t);
    if s.closers[t].stage.Delete? {
      RemoveOpenLive(s, t);
    } else {
      hide OpenLive, Inv;
      SameTable(s, CloseStep(s, t));
    }
  }

  lemma CloseTable(s: State, t: nat)
    requires t in s.closers
    ensures !s.closers[t].stage.Delete? ==> CloseStep(s, t).table == s.table
  {
  }

  lemma RemoveOpenLive(s: State, t: nat)
    requires Inv(s) && ClosesFirst(s) && OpenLive(s) && t in s.closers && s.closers[t].stage.Delete?
    requires OwnKeys(CloseStep(s, t))
    ensures OpenLive(CloseStep(s, t))
  {
    assert CloserOk(s, t);
    hide Inv, CloserOk;
    var s' := CloseStep(s, t);
    assert s'.at == s.at;
    forall q | q in s'.at && !s'.at[q].closed ensures Live(s', q) {
      assert Live(s, q) && s.at[q].key != s.at[s.closers[t].target].key;
    }
  }

  lemma CloseClosesFirst(s: State, t: nat)
    requires Inv(s) && ClosesFirst(s) && t in s.closers
    ensures ClosesFirst(CloseStep(s, t))
  {
    assert CloserOk(s, t);
    CloseExtends(s, t);
    OwnStage(s, t);
    hide Inv, CloserOk, CloseStep;
    var s' := CloseStep(s, t);
    forall u | u in s'.closers ensures ClosedFirst(s', u) {
      assert ClosedFirst(s, if u != t then u else t);
    }
  }

  /** The thread that moves: past SetFlag its target is closed. The others stand where they stood. */
  lemma OwnStage(s: State, t: nat)
    requires Inv(s) && t in s.closers && CloserOk(s, t)
    ensures var s' := CloseStep(s, t);
            && (forall u :: u in s'.closers && u != t ==> u in s.closers && s'.closers[u] == s.closers[u])
            && (t in s'.closers && !s'.closers[t].stage.Check? && !s'.closers[t].stage.SetFlag? ==>
                  && s'.closers[t].target == s.closers[t].target && s.closers[t].target in s'.at
                  && (s.closers[t].stage.Unlock? || s'.at[s.closers[t].target].closed))
  {
    hide Inv;
  }

  /** Adding stores: while no two players share a key, every player that is not closed is in the
      table, so that it misses nothing: NothingMissed. */
  lemma {:induction false} OpenPlayersLive(cap: nat, run: seq<Action>)
    requires 0 < cap && OwnKeys(After(Init(cap), run))
    ensures ClosesFirst(After(Init(cap), run))
    ensures forall p :: p in After(Init(cap), run).at && !After(Init(cap), run).at[p].closed ==>
              Live(After(Init(cap), run), p)
    decreases |run|
  {
    if run != [] {
      var n := |run| - 1;
      var before := After(Init(cap), run[..n]);
      StepExtends(before, run[n]);
      OpenPlayersLive(cap, run[..n]);
      RunInv(cap, run[..n]);
      hide Next;
      StepOpenLive(before, run[n]);
    }
  }

  lemma {:induction false} AfterJoin(s: State, a: seq<Action>, b: seq<Action>)
    ensures After(s, a + b) == After(After(s, a), b)
    decreases |b|
  {
    if b == [] {
      assert a + b == a;
    } else {
      var n := |b| - 1;
      assert (a + b)[..|a + b| - 1] == a + b[..n];
      AfterJoin(s, a, b[..n]);
    }
  }

  lemma AfterOne(s: State, a: Action)
    ensures After(s, [a]) == Next(s, a)
  {
    assert [a][..0] == [];
  }

  /** The publisher can take a turn with every player: nobody else holds its mutex, and there is
      room in its buffer if it is open. */
  predicate Ready(s: State) {
    && Inv(s) && s.pc.Idle?
    && forall k :: k in s.table ==>
         s.table[k] in s.at && var x := s.at[s.table[k]]; x.lock.Free? && (!x.closed ==> |x.buf| < s.cap)
  }

  /** Every live player under one of these keys has the next packet. */
  function DeliveredTo(s: State, keys: set<nat>): map<nat, Player> { map p | p in s.at :: Delivered(s, keys, p) }

  function Delivered(s: State, keys: set<nat>, p: nat): Player
    requires p in s.at
  {
    if Live(s, p) && s.at[p].key in keys then s.at[p].(buf := s.at[p].buf + [s.pub]) else s.at[p]
  }

  function MidRange(s: State, done: set<nat>): State {
    s.(pub := s.pub + 1, pc := Ranging(s.table.Keys, done), at := DeliveredTo(s, done))
  }

  function Turn(k: nat): seq<Action> { [Visit(k)] + [Buff, Buff, Buff, Buff] }

  lemma FourBuffs(s: State)
    ensures After(s, [Buff, Buff, Buff, Buff]) == Next(Next(Next(Next(s, Buff), Buff), Buff), Buff)
  {
    hide Next;
    assert [Buff, Buff, Buff, Buff] == [Buff] + [Buff] + [Buff] + [Buff];
    AfterOne(s, Buff);
    AfterJoin(s, [Buff], [Buff]);
    AfterOne(After(s, [Buff]), Buff);
    AfterJoin(s, [Buff] + [Buff], [Buff]);
    AfterOne(After(s, [Buff] + [Buff]), Buff);
    AfterJoin(s, [Buff] + [Buff] + [Buff], [Buff]);
    AfterOne(After(s, [Buff] + [Buff] + [Buff]), Buff);
  }

  /** The publisher on one player whose mutex is free: lock, check, send, unlock. */
  lemma BuffOne(s: State)
    requires s.pc.Buffering? && s.pc.stage.AtLock? && s.pc.target in s.at && 0 < s.pub
    requires var x := s.at[s.pc.target]; x.lock.Free? && (!x.closed ==> !x.chanClosed && |x.buf| < s.cap)
    ensures var p := s.pc.target;
            var x := s.at[p];
            After(s, [Buff, Buff, Buff, Buff]) ==
            s.(pc := Ranging(s.pc.must, s.pc.seen),
               at := s.at[p := if x.closed then x else x.(buf := x.buf + [s.pub - 1])])
  {
    var p := s.pc.target;
    var x := s.at[p];
    FourBuffs(s);
    var s1 := s.(at := s.at[p := x.(lock := Publisher)], pc := s.pc.(stage := AtCheck));
    assert Next(s, Buff) == s1;
    if x.closed {
      var s2 := s1.(pc := s1.pc.(stage := AtUnlock));
      assert Next(s1, Buff) == s2;
      var s3 := s2.(at := s2.at[p := x], pc := Ranging(s.pc.must, s.pc.seen));
      assert Next(s2, Buff) == s3;
      assert s1.at[p := x] == s.at[p := x];
    } else {
      var s2 := s1.(pc := s1.pc.(stage := AtSend));
      assert Next(s1, Buff) == s2;
      var y := x.(buf := x.buf + [s.pub - 1]);
      var s3 := s2.(at := s2.at[p := y.(lock := Publisher)], pc := s2.pc.(stage := AtUnlock));
      assert Next(s2, Buff) == s3;
      assert Next(s3, Buff) == s3.(at := s3.at[p := y], pc := Ranging(s.pc.must, s.pc.seen));
      assert s3.at[p := y] == s.at[p := y];
    }
  }

  lemma VisitOne(s: State, done: set<nat>, k: nat)
    requires Ready(s) && k in s.table && k !in done
    ensures After(MidRange(s, done), Turn(k)) == MidRange(s, done + {k})
  {
    var mid := MidRange(s, done);
    var p := s.table[k];
    assert KeyOk(s, k) && PlayerOk(s, p);
    var at := mid.(pc := Buffering(s.table.Keys, done + {k}, AtLock, p));
    assert Next(mid, Visit(k)) == at;
    assert mid.at[p] == s.at[p];
    AfterOne(mid, Visit(k));
    AfterJoin(mid, [Visit(k)], [Buff, Buff, Buff, Buff]);
    hide Inv, After;
    BuffOne(at);
    DeliveredNext(s, done, k);
  }

  lemma DeliveredAt(s: State, done: set<nat>, k: nat, q: nat)
    requires k in s.table && k !in done && s.table[k] in s.at && s.at[s.table[k]].key == k && q in s.at
    ensures var x := s.at[s.table[k]];
            Delivered(s, done + {k}, q)
            == if q != s.table[k] then Delivered(s, done, q) else if x.closed then x else x.(buf := x.buf + [s.pub])
  {
  }

  lemma DeliveredNext(s: State, done: set<nat>, k: nat)
    requires k in s.table && k !in done && s.table[k] in s.at && s.at[s.table[k]].key == k
    ensures var p := s.table[k];
            var x := s.at[p];
            DeliveredTo(s, done + {k}) == DeliveredTo(s, done)[p := if x.closed then x else x.(buf := x.buf + [s.pub])]
  {
    hide Delivered;
    forall q | q in s.at
      ensures var x := s.at[s.table[k]];
              Delivered(s, done + {k}, q)
              == if q != s.table[k] then Delivered(s, done, q) else if x.closed then x else x.(buf := x.buf + [s.pub])
    {
      DeliveredAt(s, done, k, q);
    }
  }

  lemma {:induction false} VisitAll(s: State, done: set<nat>) returns (run: seq<Action>)
    requires Ready(s) && done <= s.table.Keys
    ensures After(MidRange(s, done), run) == MidRange(s, s.table.Keys)
    decreases s.table.Keys - done
  {
    hide Ready, Next;
    if done == s.table.Keys {
      run := [];
    } else {
      assert exists k :: k in s.table.Keys && k !in done;
      var k :| k in s.table.Keys && k !in done;
      VisitOne(s, done, k);
      var rest := VisitAll(s, done + {k});
      AfterJoin(MidRange(s, done), Turn(k), rest);
      run := Turn(k) + rest;
    }
  }

  /** One packet, undisturbed: every live player has it at the end of its buffer, and nothing
      else has changed. */
  lemma RoundDelivers(s: State) returns (run: seq<Action>)
    requires Ready(s)
    ensures After(s, run).at.Keys == s.at.Keys
    ensures forall p :: p in s.at ==>
              After(s, run).at[p] == if Live(s, p) then s.at[p].(buf := s.at[p].buf + [s.pub]) else s.at[p]
    ensures After(s, run) == s.(pub := s.pub + 1, at := After(s, run).at)
  {
    assert DeliveredTo(s, {}) == s.at;
    assert Next(s, Publish) == MidRange(s, {});
    AfterOne(s, Publish);
    var visits := VisitAll(s, {});
    AfterJoin(s, [Publish], visits);
    var last := MidRange(s, s.table.Keys);
    assert Next(last, EndRange) == last.(pc := Idle);
    AfterOne(last, EndRange);
    AfterJoin(s, [Publish] + visits, [EndRange]);
    run := [Publish] + visits + [EndRange];
  }

  function FiveCloses(t: nat): seq<Action> { [Close(t), Close(t), Close(t), Close(t), Close(t)] }

  lemma FiveSteps(s: State, t: nat)
    ensures After(s, FiveCloses(t))
         == Next(Next(Next(Next(Next(s, Close(t)), Close(t)), Close(t)), Close(t)), Close(t))
  {
    hide Next;
    var c := [Close(t)];
    assert FiveCloses(t) == c + c + c + c + c;
    AfterOne(s, Close(t));
    AfterJoin(s, c, c);
    AfterOne(After(s, c), Close(t));
    AfterJoin(s, c + c, c);
    AfterOne(After(s, c + c), Close(t));
    AfterJoin(s, c + c + c, c);
    AfterOne(After(s, c + c + c), Close(t));
    AfterJoin(s, c + c + c + c, c);
    AfterOne(After(s, c + c + c + c), Close(t));
  }

  /** A deletion, undisturbed: the player is closed once, keeps what it has, leaves the table, and
      the mutex is free again. A second deletion changes the table alone. */
  lemma DeleteRemoves(s: State, t: nat, p: nat)
    requires Inv(s) && t !in s.closers && p in s.at && s.at[p].lock.Free?
    ensures var s' := After(s, [BeginDelete(t, p)] + FiveCloses(t));
            && s'.at == s.at[p := s.at[p].(closed := true, chanClosed := true, closes := 1)]
            && s'.table == s.table - {s.at[p].key} && s'.closers == s.closers
            && s'.pub == s.pub && s'.pc == Forget(s.pc, s.at[p].key) && !s'.panicked
  {
    var x := s.at[p];
    assert PlayerOk(s, p);
    AfterOne(s, BeginDelete(t, p));
    AfterJoin(s, [BeginDelete(t, p)], FiveCloses(t));
    var s1 := s.(at := s.at[p := x.(lock := Closer(t))], closers := s.closers[t := Closing(Check, p)]);
    assert Next(s, BeginDelete(t, p)) == s1;
    FiveSteps(s1, t);
    if x.closed { CloseAgain(s, s1, t, p); } else { CloseOnce(s, s1, t, p); }
  }

  lemma CloseOnce(s: State, s1: State, t: nat, p: nat)
    requires t !in s.closers && p in s.at && s.at[p].lock.Free?
    requires !s.at[p].closed && !s.at[p].chanClosed && s.at[p].closes == 0
    requires s1 == s.(at := s.at[p := s.at[p].(lock := Closer(t))], closers := s.closers[t := Closing(Check, p)])
    ensures var y := s.at[p].(closed := true, chanClosed := true, closes := 1);
            Next(Next(Next(Next(Next(s1, Close(t)), Close(t)), Close(t)), Close(t)), Close(t)) ==
            s.(at := s.at[p := y], table := s.table - {y.key}, pc := Forget(s.pc, y.key))
  {
    var x := s1.at[p];
    var s2 := s1.(closers := s.closers[t := Closing(SetFlag, p)]);
    assert s1.closers[t := Closing(SetFlag, p)] == s2.closers;
    assert Next(s1, Close(t)) == s2;
    var s3 := s.(at := s.at[p := x.(closed := true)], closers := s.closers[t := Closing(CloseChan, p)]);
    assert s2.at[p := x.(closed := true)] == s3.at && s2.closers[t := Closing(CloseChan, p)] == s3.closers;
    assert Next(s2, Close(t)) == s3;
    var z := x.(closed := true, chanClosed := true, closes := 1);
    var s4 := s.(at := s.at[p := z], closers := s.closers[t := Closing(Unlock, p)]);
    assert s3.at[p := z] == s4.at && s3.closers[t := Closing(Unlock, p)] == s4.closers;
    assert Next(s3, Close(t)) == s4;
    UnlockAndRemove(s, s4, t, p, z);
  }

  lemma CloseAgain(s: State, s1: State, t: nat, p: nat)
    requires t !in s.closers && p in s.at && s.at[p].lock.Free?
    requires s.at[p].closed && s.at[p].chanClosed && s.at[p].closes == 1
    requires s1 == s.(at := s.at[p := s.at[p].(lock := Closer(t))], closers := s.closers[t := Closing(Check, p)])
    ensures var y := s.at[p];
            Next(Next(Next(Next(Next(s1, Close(t)), Close(t)), Close(t)), Close(t)), Close(t)) ==
            s.(at := s.at[p := y], table := s.table - {y.key}, pc := Forget(s.pc, y.key))
  {
    var s2 := s1.(closers := s.closers[t := Closing(Unlock, p)]);
    assert s1.closers[t := Closing(Unlock, p)] == s2.closers;
    assert Next(s1, Close(t)) == s2;
    UnlockAndRemove(s, s2, t, p, s1.at[p]);
  }

  lemma UnlockAndRemove(s: State, s4: State, t: nat, p: nat, z: Player)
    requires t !in s.closers && p in s.at && z.key == s.at[p].key
    requires s4 == s.(at := s.at[p := z], closers := s.closers[t := Closing(Unlock, p)])
    ensures var y := z.(lock := Free);
            Next(Next(s4, Close(t)), Close(t)) ==
            s.(at := s.at[p := y], table := s.table - {y.key}, pc := Forget(s.pc, y.key))
    ensures t !in Next(Next(s4, Close(t)), Close(t)).closers
  {
    var y := z.(lock := Free);
    var s5 := s.(at := s.at[p := y], closers := s.closers[t := Closing(Delete, p)]);
    assert s4.at[p := y] == s5.at && s4.closers[t := Closing(Delete, p)] == s5.closers;
    assert Next(s4, Close(t)) == s5;
    assert s5.closers - {t} == s.closers;
  }

  function Receives(p: nat, n: nat): seq<Action> { seq(n, _ => Receive(p)) }

  /** A player that keeps reading gets its whole buffer, in order, closed or not. */
  lemma {:induction false} ReaderDrains(s: State, p: nat)
    requires p in s.at
    ensures var x := s.at[p];
            After(s, Receives(p, |x.buf|)) == s.(at := s.at[p := x.(got := x.got + x.buf, buf := [])])
    decreases |s.at[p].buf|
  {
    var x := s.at[p];
    var n := |x.buf|;
    if n == 0 {
      assert x.got + x.buf == x.got;
      assert s.at[p := x] == s.at;
    } else {
      hide Next, After;
      var s1 := ReceiveOne(s, p);
      ReaderDrains(s1, p);
      AfterOne(s, Receive(p));
      AfterJoin(s, [Receive(p)], Receives(p, n - 1));
      assert [Receive(p)] + Receives(p, n - 1) == Receives(p, n);
    }
  }

  lemma ReceiveOne(s: State, p: nat) returns (s1: State)
    requires p in s.at && s.at[p].buf != []
    ensures s1 == Next(s, Receive(p)) && p in s1.at && |s1.at[p].buf| == |s.at[p].buf| - 1
    ensures var x, y := s.at[p], s1.at[p];
            s1.(at := s1.at[p := y.(got := y.got + y.buf, buf := [])])
            == s.(at := s.at[p := x.(got := x.got + x.buf, buf := [])])
  {
    s1 := Next(s, Receive(p));
    var x, y := s.at[p], s1.at[p];
    assert y.got + y.buf == x.got + x.buf;
    var z := x.(got := x.got + x.buf, buf := []);
    assert s.at[p := y][p := z] == s.at[p := z];
  }

  /** From the start: a player is added, one packet is published, and the player has it. */
  lemma FirstPacketReached() returns (run: seq<Action>)
    ensures var s := After(Init(10), run);
            0 in s.at && s.table == map[7 := 0] && s.pub == 1 && s.at[0].got == [0] && s.at[0].buf == []
  {
    var s0 := Init(10);
    var s1 := Next(s0, Add(0, 7));
    AfterOne(s0, Add(0, 7));
    RunInv(10, [Add(0, 7)]);
    assert Ready(s1);
    var round := RoundDelivers(s1);
    AfterJoin(s0, [Add(0, 7)], round);
    var s2 := After(s1, round);
    assert s2.at[0].buf == [0] && Receives(0, 1) == [Receive(0)];
    ReaderDrains(s2, 0);
    AfterJoin(s0, [Add(0, 7)] + round, Receives(0, 1));
    run := [Add(0, 7)] + round + Receives(0, 1);
  }

  // ---------------------------------------------------------------- what could go wrong, and does not

  /** The model does notice a send on a closed channel and a second close: FanOutSafe says that
      neither is ever reached. */
  lemma MisuseNoticed(s: State, t: nat)
    ensures s.pc.Buffering? && s.pc.stage.AtSend? && s.pc.target in s.at && s.at[s.pc.target].chanClosed ==>
              Next(s, Buff).panicked
    ensures t in s.closers && s.closers[t].stage.CloseChan? && s.closers[t].target in s.at
            && s.at[s.closers[t].target].chanClosed ==>
              Next(s, Close(t)).panicked
    ensures s.panicked ==> forall a :: Next(s, a).panicked
  {
  }

  function Must(pc: PubPc): set<nat> { if pc.Idle? then {} else pc.must - pc.seen }

  lemma StepVisitable(s: State, a: Action)
    requires Inv(s) && Must(s.pc) <= s.table.Keys
    ensures Must(Next(s, a).pc) <= Next(s, a).table.Keys
  {
    hide Inv;
    if a.Buff? && s.pc.Buffering? {
      BuffExtends(s);
      BuffMust(s);
    } else if a.Close? && a.thread in s.closers {
      CloseTable(s, a.thread);
    }
  }

  lemma BuffMust(s: State)
    requires s.pc.Buffering?
    ensures Must(BuffStep(s).pc) == Must(s.pc)
  {
  }

  /** What a range still has to visit is in the table, whatever is deleted meanwhile: it is never
      left waiting for a key that is gone. */
  lemma {:induction false} RangeVisitable(cap: nat, run: seq<Action>)
    requires 0 < cap
    ensures Must(After(Init(cap), run).pc) <= After(Init(cap), run).table.Keys
    decreases |run|
  {
    if run != [] {
      var n := |run| - 1;
      RangeVisitable(cap, run[..n]);
      RunInv(cap, run[..n]);
      hide Next, Must;
      StepVisitable(After(Init(cap), run[..n]), run[n]);
    }
  }
}
