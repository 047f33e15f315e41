/** A session's life undisturbed, from any reachable state and field by field: published, left and
    expired, or taken over within the grace time. */
module BrokerLife {
  import opened Options
  import opened Brokers

  /** One more session, x, stored under its key. */
  function Plus(s: State, x: Session, conns: map<nat, Pc>): State {
    var n := s.store.made;
    State(Store(n + 1, s.store.sessions[n := x], s.store.table[x.key := n], s.store.total + 1), conns, s.lost)
  }

  lemma PublishStores(s: State, c: nat, k: nat, id: nat)
    requires Inv(s) && c !in s.conns && k !in s.store.table
    ensures Next(s, Publish(c, k, id, true))
            == Plus(s, Session(k, id, Some(c), 0, 0, Waiting), s.conns[c := Publishing(k, s.store.made)])
  {
  }

  lemma LeaveClears(s: State, x: Session, c: nat)
    requires Inv(s) && Inv(Plus(s, x, s.conns[c := Publishing(x.key, s.store.made)]))
    ensures Next(Plus(s, x, s.conns[c := Publishing(x.key, s.store.made)]), Leave(c))
            == Plus(s, x.(publisher := None), s.conns[c := Signalling(s.store.made)])
  {
    hide SessionOk, ConnOk;
    var n, y := s.store.made, x.(publisher := None);
    assert s.store.sessions[n := x][n := y] == s.store.sessions[n := y];
    assert s.conns[c := Publishing(x.key, n)][c := Signalling(n)] == s.conns[c := Signalling(n)];
  }

  lemma SignalGoes(s: State, x: Session, c: nat)
    requires Inv(s) && Inv(Plus(s, x, s.conns[c := Signalling(s.store.made)])) && c !in s.conns && x.offline == 0
    ensures Next(Plus(s, x, s.conns[c := Signalling(s.store.made)]), Signal(c))
            == Plus(s, x.(offline := 1, sends := x.sends + 1), s.conns)
  {
    hide SessionOk, ConnOk;
    var n, y := s.store.made, x.(offline := 1, sends := x.sends + 1);
    assert s.store.sessions[n := x][n := y] == s.store.sessions[n := y];
    assert s.conns[c := Signalling(n)] - {c} == s.conns;
  }

  lemma WatcherArms(s: State, x: Session, conns: map<nat, Pc>)
    requires Inv(s) && Inv(Plus(s, x, conns)) && x.offline == 1 && x.watch.Waiting?
    ensures Next(Plus(s, x, conns), Watcher(s.store.made)) == Plus(s, x.(offline := 0, watch := Armed), conns)
  {
    var n, y := s.store.made, x.(offline := 0, watch := Armed);
    assert s.store.sessions[n := x][n := y] == s.store.sessions[n := y];
  }

  lemma AnotherTakesOver(s: State, x: Session, d: nat, id: nat, named: bool)
    requires Inv(s) && Inv(Plus(s, x, s.conns)) && x.publisher == None && d !in s.conns
    ensures Next(Plus(s, x, s.conns), Publish(d, x.key, id, named))
            == Plus(s, x.(publisher := Some(d), id := id), s.conns[d := Publishing(x.key, s.store.made)])
  {
    var n, y := s.store.made, x.(publisher := Some(d), id := id);
    assert s.store.sessions[n := x][n := y] == s.store.sessions[n := y];
  }

  lemma TimerRemoves(s: State, x: Session)
    requires Inv(s) && Inv(Plus(s, x, s.conns)) && x.publisher == None && x.watch.Armed? && x.key !in s.store.table
    ensures Next(Plus(s, x, s.conns), Timer(s.store.made))
            == s.(store := s.store.(made := s.store.made + 1,
                                    sessions := s.store.sessions[s.store.made := x.(watch := Fired)]))
  {
    hide SessionOk, ConnOk;
    var n, y := s.store.made, x.(watch := Fired);
    assert s.store.sessions[n := x][n := y] == s.store.sessions[n := y];
    assert s.store.table[x.key := n] - {x.key} == s.store.table;
  }

  lemma TimerKeeps(s: State, x: Session, conns: map<nat, Pc>)
    requires Inv(s) && Inv(Plus(s, x, conns)) && x.publisher.Some? && x.watch.Armed?
    ensures Next(Plus(s, x, conns), Timer(s.store.made)) == Plus(s, x.(watch := Fired), conns)
  {
    var n, y := s.store.made, x.(watch := Fired);
    assert s.store.sessions[n := x][n := y] == s.store.sessions[n := y];
  }

  /** Published, left, the signal sent and taken: the session waits under its key without a
      publisher, its timer armed, and the connection is outside again. */
  lemma Abandoned(s: State, c: nat, k: nat, id: nat, rest: seq<Action>)
    requires Inv(s) && c !in s.conns && k !in s.store.table
    ensures var s' := Plus(s, Session(k, id, None, 0, 1, Armed), s.conns);
            && Inv(s')
            && RunFrom(s, [Publish(c, k, id, true), Leave(c), Signal(c), Watcher(s.store.made)] + rest)
               == RunFrom(s', rest)
  {
    hide Next, Inv, RunFrom, Plus;
    var n := s.store.made;
    var a1, a2, a3, a4 := Publish(c, k, id, true), Leave(c), Signal(c), Watcher(n);
    var r3 := [a4] + rest;
    var r2 := [a3] + r3;
    var r1 := [a2] + r2;
    assert [a1, a2, a3, a4] + rest == [a1] + r1;
    PublishStores(s, c, k, id);
    OneStep(s, a1, r1);
    var x := Session(k, id, Some(c), 0, 0, Waiting);
    var s1 := Plus(s, x, s.conns[c := Publishing(k, n)]);
    LeaveClears(s, x, c);
    OneStep(s1, a2, r2);
    x := x.(publisher := None);
    var s2 := Plus(s, x, s.conns[c := Signalling(n)]);
    SignalGoes(s, x, c);
    OneStep(s2, a3, r3);
    x := x.(offline := 1, sends := 1);
    WatcherArms(s, x, s.conns);
    OneStep(Plus(s, x, s.conns), a4, rest);
  }

  /** A whole life: in the end the table, the counter and the connections are as before. */
  lemma Expires(s: State, c: nat, k: nat, id: nat)
    requires Inv(s) && c !in s.conns && k !in s.store.table
    ensures var n := s.store.made;
            RunFrom(s, [Publish(c, k, id, true), Leave(c), Signal(c), Watcher(n)] + [Timer(n)])
            == s.(store := s.store.(made := n + 1,
                                    sessions := s.store.sessions[n := Session(k, id, None, 0, 1, Fired)]))
  {
    hide Next, Inv;
    var n := s.store.made;
    var x := Session(k, id, None, 0, 1, Armed);
    Abandoned(s, c, k, id, [Timer(n)]);
    TimerRemoves(s, x);
    assert [Timer(n)] + [] == [Timer(n)];
    OneStep(Plus(s, x, s.conns), Timer(n), []);
  }

  /** Taken over in time, by a connection that need name nothing: the same session has the new
      publisher and the new id, and the timer leaves it alone. */
  lemma TakenOver(s: State, c: nat, k: nat, id: nat, d: nat, newId: nat, named: bool)
    requires Inv(s) && c !in s.conns && d !in s.conns && k !in s.store.table
    ensures var n := s.store.made;
            RunFrom(s, [Publish(c, k, id, true), Leave(c), Signal(c), Watcher(n)]
                       + [Publish(d, k, newId, named), Timer(n)])
            == State(Store(n + 1, s.store.sessions[n := Session(k, newId, Some(d), 0, 1, Fired)], s.store.table[k := n],
                           s.store.total + 1),
                     s.conns[d := Publishing(k, n)], false)
  {
    assert !s.lost;
    hide Next, Inv;
    var n := s.store.made;
    var x := Session(k, id, None, 0, 1, Armed);
    var y := x.(publisher := Some(d), id := newId);
    var s1 := Plus(s, x, s.conns);
    var s2 := Plus(s, y, s.conns[d := Publishing(k, n)]);
    Abandoned(s, c, k, id, [Publish(d, k, newId, named), Timer(n)]);
    AnotherTakesOver(s, x, d, newId, named);
    assert [Publish(d, k, newId, named), Timer(n)] == [Publish(d, k, newId, named)] + [Timer(n)];
    OneStep(s1, Publish(d, k, newId, named), [Timer(n)]);
    TimerKeeps(s, y, s.conns[d := Publishing(k, n)]);
    assert [Timer(n)] + [] == [Timer(n)];
    OneStep(s2, Timer(n), []);
  }

  /** A publish changes something exactly when its connection is outside and the key's session has
      no publisher, or there is none and everything it needs is named; then the connection is in
      the loop with that session. */
  lemma PublishesIff(s: State, c: nat, k: nat, id: nat, named: bool)
    requires Inv(s)
    ensures var s' := Next(s, Publish(c, k, id, named));
            var free := if k in s.store.table then s.store.sessions[s.store.table[k]].publisher == None else named;
            var ok := c !in s.conns && free;
            && (!ok ==> s' == s)
            && (ok ==> k in s'.store.table && s'.conns == s.conns[c := Publishing(k, s'.store.table[k])]
                       && s'.store.sessions[s'.store.table[k]].publisher == Some(c)
                       && s'.store.sessions[s'.store.table[k]].id == id
                       && (k in s.store.table ==> s'.store.table == s.store.table))
  {
  }

  /** The model does notice a soft delete that finds no session: CountsSessions says that it never
      happens. */
  lemma MissNoticed(s: State, c: nat)
    requires StoreOk(s.store) && c in s.conns && s.conns[c].Publishing? && s.conns[c].key !in s.store.table
    ensures var s' := Next(s, Leave(c)); s'.lost && s'.conns == s.conns - {c} && s'.store == s.store
  {
  }
}
