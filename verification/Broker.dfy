/** The publisher's side of a session's life: pkg/rtmp/server/broker.go, the offline signal of
    pkg/rtmp/server/session.go and the publish cycle of pkg/rtmp/server/server_conn.go. */
module Brokers {
  import opened Options

  /** A session: who publishes, how many signals its one-place offline channel holds and how
      many were ever sent, and how far its single watcher is. */
  datatype Watch = Waiting | Armed | Fired
  datatype Session = Session(key: nat, id: nat, publisher: Option<nat>, offline: nat, sends: nat, watch: Watch)

  /** Every session ever made, by serial number, and how many; the broker's table and its
      counter. */
  datatype Store = Store(made: nat, sessions: map<nat, Session>, table: map<nat, nat>, total: int)

  const EMPTY: Store := Store(0, map[], map[], 0)

  datatype Created = Created(store: Store, serial: nat) | Refused

  predicate StoreOk(s: Store) {
    && s.total == |s.table|
    && forall k :: k in s.table ==> s.table[k] in s.sessions && s.sessions[s.table[k]].key == k
  }

  // ---------------------------------------------------------------- operations

  /** A publisher takes over the session of its key if that has none, and makes one if there is
      none; `named` says that the names a new session needs are all there. */
  function Create(s: Store, conn: nat, key: nat, id: nat, named: bool): Created
    requires StoreOk(s)
  {
    if key in s.table then
      var x := s.sessions[s.table[key]];
      if x.publisher.Some? then Refused
      else Created(s.(sessions := s.sessions[s.table[key] := x.(publisher := Some(conn), id := id)]), s.table[key])
    else if !named then Refused
    else Created(Store(s.made + 1, s.sessions[s.made := Session(key, id, Some(conn), 0, 0, Waiting)],
                       s.table[key := s.made], s.total + 1),
                 s.made)
  }

  /** The first half of a soft delete: the publisher is cleared. */
  function Clear(s: Store, key: nat): Option<Store>
    requires StoreOk(s)
  {
    if key !in s.table then None
    else Some(s.(sessions := s.sessions[s.table[key] := s.sessions[s.table[key]].(publisher := None)]))
  }

  /** The second half: the offline signal, which waits while the channel is full. */
  function Send(s: Store, serial: nat): Option<Store> {
    if serial in s.sessions && s.sessions[serial].offline == 0
    then Some(s.(sessions := s.sessions[serial := s.sessions[serial].(offline := 1, sends := s.sessions[serial].sends + 1)]))
    else None
  }

  /** The watcher takes one signal, once, and arms the timer. */
  function Arm(s: Store, serial: nat): Store {
    if serial in s.sessions && s.sessions[serial].watch.Waiting? && s.sessions[serial].offline == 1
    then s.(sessions := s.sessions[serial := s.sessions[serial].(offline := 0, watch := Armed)])
    else s
  }

  function Without<V>(m: map<nat, V>, key: nat): map<nat, V> { m - {key} }

  function Remove(s: Store, key: nat): Store { s.(table := Without(s.table, key), total := s.total - 1) }

  /** The timer: a session with a publisher stays, any other is removed under its key. */
  function Expire(s: Store, serial: nat): Store {
    if serial in s.sessions && s.sessions[serial].watch.Armed? then
      var s' := s.(sessions := s.sessions[serial := s.sessions[serial].(watch := Fired)]);
      if s.sessions[serial].publisher.Some? then s' else Remove(s', s.sessions[serial].key)
    else s
  }

  lemma Stores(s: Store, conn: nat, key: nat, id: nat)
    requires StoreOk(s) && key !in s.table && s.made !in s.sessions
    ensures var r := Create(s, conn, key, id, true);
            && r.Created? && StoreOk(r.store)
            && r.store == Store(s.made + 1, s.sessions[s.made := Session(key, id, Some(conn), 0, 0, Waiting)],
                                s.table[key := s.made], s.total + 1)
  {
  }

  // ---------------------------------------------------------------- connections

  /** Outside, inside the publish loop, or sending the offline signal on the way out. */
  datatype Pc = Publishing(key: nat, serial: nat) | Signalling(serial: nat)

  datatype State = State(store: Store, conns: map<nat, Pc>, lost: bool)

  datatype Action =
    | Publish(conn: nat, key: nat, id: nat, named: bool)
    | Leave(conn: nat)
    | Signal(conn: nat)
    | Watcher(serial: nat)
    | Timer(serial: nat)

  function Next(s: State, a: Action): State
    requires StoreOk(s.store)
  {
    match a
    case Publish(c, k, id, named) =>
      if c in s.conns then s else
      var r := Create(s.store, c, k, id, named);
      if r.Refused? then s else State(r.store, s.conns[c := Publishing(k, r.serial)], s.lost)
    case Leave(c) =>
      if c !in s.conns || s.conns[c].Signalling? then s else
      var r := Clear(s.store, s.conns[c].key);
      if r.None? then s.(conns := s.conns - {c}, lost := true)
      else State(r.value, s.conns[c := Signalling(s.store.table[s.conns[c].key])], s.lost)
    case Signal(c) =>
      if c !in s.conns || s.conns[c].Publishing? then s else
      var r := Send(s.store, s.conns[c].serial);
      if r.None? then s else State(r.value, s.conns - {c}, s.lost)
    case Watcher(n) => s.(store := Arm(s.store, n))
    case Timer(n) => s.(store := Expire(s.store, n))
  }

  /** In the table under its key. */
  predicate Listed(s: Store, n: nat) { n in s.sessions && s.sessions[n].key in s.table && s.table[s.sessions[n].key] == n }

  predicate Publishes(s: State, c: nat, k: nat, n: nat) { c in s.conns && s.conns[c] == Publishing(k, n) }

  predicate SessionOk(s: State, n: nat)
    requires n in s.store.sessions
  {
    var x := s.store.sessions[n];
    && n < s.store.made
    && x.offline <= 1 && x.sends == x.offline + (if x.watch.Waiting? then 0 else 1)
    && (x.publisher.Some? ==> Listed(s.store, n) && Publishes(s, x.publisher.value, x.key, n))
    && (!x.watch.Fired? ==> Listed(s.store, n))
  }

  predicate ConnOk(s: State, c: nat)
    requires c in s.conns
  {
    match s.conns[c]
    case Publishing(k, n) =>
      k in s.store.table && s.store.table[k] == n && n in s.store.sessions && s.store.sessions[n].publisher == Some(c)
    case Signalling(n) => n in s.store.sessions
  }

  predicate Inv(s: State) {
    && !s.lost && StoreOk(s.store)
    && (forall n :: n in s.store.sessions ==> SessionOk(s, n))
    && (forall c :: c in s.conns ==> ConnOk(s, c))
  }

  lemma PublishKeeps(s: State, a: Action)
    requires Inv(s) && a.Publish? && a.conn !in s.conns
    ensures Inv(Next(s, a))
  {
    var s' := Next(s, a);
    if s' != s {
      var key := a.key;
      if key in s.store.table { assert SessionOk(s, s.store.table[key]); }
      assert s'.store.total == |s'.store.table|;
      forall n | n in s'.store.sessions ensures SessionOk(s', n) {
        if n in s.store.sessions { assert SessionOk(s, n); }
      }
      forall c | c in s'.conns ensures ConnOk(s', c) {
        if c in s.conns { assert ConnOk(s, c); }
      }
    }
  }

  lemma LeaveKeeps(s: State, c: nat)
    requires Inv(s) && c in s.conns && s.conns[c].Publishing?
    ensures Inv(Next(s, Leave(c)))
  {
    var s' := Next(s, Leave(c));
    assert ConnOk(s, c);
    forall n | n in s'.store.sessions ensures SessionOk(s', n) { assert SessionOk(s, n); }
    forall d | d in s'.conns ensures ConnOk(s', d) { assert ConnOk(s, d); }
  }

  lemma SignalKeeps(s: State, c: nat)
    requires Inv(s) && c in s.conns && s.conns[c].Signalling?
    ensures Inv(Next(s, Signal(c)))
  {
    var s' := Next(s, Signal(c));
    assert ConnOk(s, c);
    forall n | n in s'.store.sessions ensures SessionOk(s', n) { assert SessionOk(s, n); }
    forall d | d in s'.conns ensures ConnOk(s', d) { assert ConnOk(s, d); }
  }

  lemma WatcherKeeps(s: State, n: nat)
    requires Inv(s)
    ensures Inv(Next(s, Watcher(n)))
  {
    var s' := Next(s, Watcher(n));
    forall m | m in s'.store.sessions ensures SessionOk(s', m) { assert SessionOk(s, m); }
    forall d | d in s'.conns ensures ConnOk(s', d) { assert ConnOk(s, d); }
  }

  lemma TimerKeeps(s: State, n: nat)
    requires Inv(s)
    ensures Inv(Next(s, Timer(n)))
  {
    var s' := Next(s, Timer(n));
    if n in s.store.sessions {
      assert SessionOk(s, n);
      forall m | m in s'.store.sessions ensures SessionOk(s', m) { assert SessionOk(s, m); }
      forall d | d in s'.conns ensures ConnOk(s', d) { assert ConnOk(s, d); }
    }
  }

  lemma StepInv(s: State, a: Action)
    requires Inv(s)
    ensures Inv(Next(s, a))
  {
    hide Inv;
    match a
    case Publish(c, k, id, named) => if c !in s.conns { PublishKeeps(s, a); }
    case Leave(c) => if c in s.conns && s.conns[c].Publishing? { LeaveKeeps(s, c); }
    case Signal(c) => if c in s.conns && s.conns[c].Signalling? { SignalKeeps(s, c); }
    case Watcher(n) => WatcherKeeps(s, n);
    case Timer(n) => TimerKeeps(s, n);
  }

  // ---------------------------------------------------------------- whole runs

  function RunFrom(s: State, run: seq<Action>): (s': State)
    requires Inv(s)
    ensures Inv(s')
    decreases |run|
  {
    if run == [] then s
    else
      StepInv(s, run[0]);
      RunFrom(Next(s, run[0]), run[1..])
  }

  /** The state some run of actions leads to. */
  function After(run: seq<Action>): (s: State)
    ensures Inv(s)
  {
    RunFrom(State(EMPTY, map[], false), run)
  }

  /** A connection is in the publish loop for a key exactly when the session under that key
      names it as its publisher. */
  lemma Ownership(run: seq<Action>, c: nat, k: nat)
    ensures var s := After(run);
            (exists n :: Publishes(s, c, k, n))
            <==> k in s.store.table && s.store.table[k] in s.store.sessions
                 && s.store.sessions[s.store.table[k]].publisher == Some(c)
  {
    var s := After(run);
    if n :| Publishes(s, c, k, n) {
      assert ConnOk(s, c);
    }
    if k in s.store.table && s.store.sessions[s.store.table[k]].publisher == Some(c) {
      var n := s.store.table[k];
      assert SessionOk(s, n);
      assert Publishes(s, c, k, n);
    }
  }

  /** The counter is the number of stored sessions, and a soft delete has never missed. */
  lemma CountsSessions(run: seq<Action>)
    ensures After(run).store.total == |After(run).store.table| && !After(run).lost
  {
  }

  /** Leaving clears the leaver's own session and touches nothing else. */
  lemma SoftDeleteOwn(run: seq<Action>, c: nat, k: nat, n: nat)
    requires Publishes(After(run), c, k, n)
    ensures var s := After(run);
            var r := Clear(s.store, k);
            && r.Some? && n in s.store.sessions && s.store.sessions[n].publisher == Some(c)
            && r.value == s.store.(sessions := s.store.sessions[n := s.store.sessions[n].(publisher := None)])
  {
    assert ConnOk(After(run), c);
  }

  /** The timer removes the session it belongs to or none. */
  lemma ExpiresOwn(run: seq<Action>, n: nat)
    ensures var s := After(run).store;
            var s' := Expire(s, n);
            && (forall k :: k in s.table && k !in s'.table ==> s.table[k] == n && s.sessions[n].publisher == None)
            && (forall k :: k in s'.table ==> k in s.table && s'.table[k] == s.table[k])
  {
    var s := After(run);
    if n in s.store.sessions { assert SessionOk(s, n); }
  }

  /** At most two offline signals ever go through. */
  lemma TwoSignals(run: seq<Action>, n: nat)
    requires n in After(run).store.sessions
    ensures After(run).store.sessions[n].sends <= 2
    ensures After(run).store.sessions[n].sends == 2 <==>
            After(run).store.sessions[n].offline == 1 && !After(run).store.sessions[n].watch.Waiting?
  {
    assert SessionOk(After(run), n);
  }

  /** The third publisher to leave a session waits for ever: after two signals the channel
      stays full, whatever happens. */
  lemma {:induction false} ThirdLeaverStuck(s: State, run: seq<Action>, c: nat, n: nat)
    requires Inv(s) && n in s.store.sessions && s.store.sessions[n].sends == 2
    requires c in s.conns && s.conns[c] == Signalling(n)
    ensures var s' := RunFrom(s, run); c in s'.conns && s'.conns[c] == Signalling(n)
    decreases |run|
  {
    if run != [] {
      StepInv(s, run[0]);
      assert SessionOk(s, n);
      StuckStep(s, run[0], c, n);
      assert Full(Next(s, run[0]), c, n);
      ThirdLeaverStuck(Next(s, run[0]), run[1..], c, n);
    }
  }

  /** Two signals sent, one taken, one left in the channel for ever. */
  predicate Full(s: State, c: nat, n: nat) {
    && n in s.store.sessions && n < s.store.made && c in s.conns && s.conns[c] == Signalling(n)
    && var x := s.store.sessions[n]; x.sends == 2 && x.offline == 1 && !x.watch.Waiting?
  }

  lemma StuckStep(s: State, a: Action, c: nat, n: nat)
    requires StoreOk(s.store) && Full(s, c, n)
    ensures Full(Next(s, a), c, n)
  {
    match a
    case Publish(_, k, _, _) => {}
    case Leave(_) => {}
    case Signal(_) => {}
    case Watcher(_) => {}
    case Timer(_) => {}
  }

  /** A leaver gets out in some continuation exactly when the channel is not full or the watcher
      still has its one receive to make; that is, when fewer than two signals were sent. */
  lemma LeaverEscapesIff(s: State, c: nat, n: nat)
    requires Inv(s) && c in s.conns && s.conns[c] == Signalling(n)
    ensures n in s.store.sessions
    ensures var x := s.store.sessions[n];
            && ((exists run :: c !in RunFrom(s, run).conns) <==> !(x.offline == 1 && !x.watch.Waiting?))
            && ((exists run :: c !in RunFrom(s, run).conns) <==> x.sends < 2)
  {
    assert ConnOk(s, c) && SessionOk(s, n);
    var x := s.store.sessions[n];
    if x.sends < 2 {
      var run := Escape(s, c, n);
      assert c !in RunFrom(s, run).conns;
    } else {
      forall run ensures c in RunFrom(s, run).conns { ThirdLeaverStuck(s, run, c, n); }
    }
  }

  lemma OneStep(s: State, a: Action, run: seq<Action>)
    requires Inv(s)
    ensures Inv(Next(s, a)) && RunFrom(s, [a] + run) == RunFrom(Next(s, a), run)
  {
    StepInv(s, a);
    assert ([a] + run)[1..] == run;
  }

  lemma Escape(s: State, c: nat, n: nat) returns (run: seq<Action>)
    requires Inv(s) && c in s.conns && s.conns[c] == Signalling(n)
    requires n in s.store.sessions && s.store.sessions[n].sends < 2
    ensures c !in RunFrom(s, run).conns
  {
    hide Inv, RunFrom;
    assert SessionOk(s, n) && StoreOk(s.store) by { Holding(s, n); }
    if s.store.sessions[n].offline == 0 {
      run := EscapeNow(s, c, n);
    } else {
      StepInv(s, Watcher(n));
      var rest := EscapeNow(Next(s, Watcher(n)), c, n);
      OneStep(s, Watcher(n), rest);
      run := [Watcher(n)] + rest;
    }
  }

  lemma Holding(s: State, n: nat)
    requires Inv(s) && n in s.store.sessions
    ensures SessionOk(s, n) && StoreOk(s.store)
  {
  }

  lemma EscapeNow(s: State, c: nat, n: nat) returns (run: seq<Action>)
    requires Inv(s) && c in s.conns && s.conns[c] == Signalling(n)
    requires n in s.store.sessions && s.store.sessions[n].offline == 0
    ensures c !in RunFrom(s, run).conns
  {
    run := [Signal(c)] + [];
    OneStep(s, Signal(c), []);
  }

  /** It does happen: three publishers in turn on one key, none gone for the whole grace time. */
  lemma ThirdLeaverReached() returns (run: seq<Action>)
    ensures var s := After(run);
            0 in s.store.sessions && s.store.sessions[0].sends == 2 && 3 in s.conns && s.conns[3] == Signalling(0)
  {
    hide Inv, After, RunFrom;
    run := [];
    Started();
    run := Then(run, Publish(1, 7, 0, true), OneSession(Some(1), 0, 0, Waiting, map[1 := Publishing(7, 0)]));
    run := Then(run, Leave(1), OneSession(None, 0, 0, Waiting, map[1 := Signalling(0)]));
    run := Then(run, Signal(1), OneSession(None, 1, 1, Waiting, map[]));
    run := Then(run, Watcher(0), OneSession(None, 0, 1, Armed, map[]));
    run := Then(run, Publish(2, 7, 0, true), OneSession(Some(2), 0, 1, Armed, map[2 := Publishing(7, 0)]));
    run := Then(run, Leave(2), OneSession(None, 0, 1, Armed, map[2 := Signalling(0)]));
    run := Then(run, Signal(2), OneSession(None, 1, 2, Armed, map[]));
    run := Then(run, Publish(3, 7, 0, true), OneSession(Some(3), 1, 2, Armed, map[3 := Publishing(7, 0)]));
    run := Then(run, Leave(3), OneSession(None, 1, 2, Armed, map[3 := Signalling(0)]));
  }

  /** One session, number 0, under key 7. */
  function OneSession(publisher: Option<nat>, offline: nat, sends: nat, watch: Watch, conns: map<nat, Pc>): State {
    State(Store(1, map[0 := Session(7, 0, publisher, offline, sends, watch)], map[7 := 0], 1), conns, false)
  }

  lemma Started()
    ensures After([]) == State(EMPTY, map[], false)
  {
  }

  lemma Then(run: seq<Action>, a: Action, s': State) returns (longer: seq<Action>)
    requires Next(After(run), a) == s'
    ensures After(longer) == s'
  {
    longer := run + [a];
    var s := State(EMPTY, map[], false);
    RunJoin(s, run, [a]);
    assert [a][1..] == [];
  }

  lemma {:induction false} RunJoin(s: State, a: seq<Action>, b: seq<Action>)
    requires Inv(s)
    ensures RunFrom(s, a + b) == RunFrom(RunFrom(s, a), b)
    decreases |a|
  {
    if a == [] {
      assert a + b == b;
    } else {
      assert (a + b)[0] == a[0] && (a + b)[1..] == a[1..] + b;
      StepInv(s, a[0]);
      RunJoin(Next(s, a[0]), a[1..], b);
    }
  }

  /** A session whose timer found a publisher is never removed. */
  lemma {:induction false} SurvivorStays(s: State, run: seq<Action>, n: nat)
    requires Inv(s) && Listed(s.store, n) && s.store.sessions[n].watch.Fired?
    ensures Listed(RunFrom(s, run).store, n)
    decreases |run|
  {
    if run != [] {
      StepInv(s, run[0]);
      SurvivesStep(s, run[0], n);
      SurvivorStays(Next(s, run[0]), run[1..], n);
    }
  }

  lemma SurvivesStep(s: State, a: Action, n: nat)
    requires Inv(s) && Listed(s.store, n) && s.store.sessions[n].watch.Fired?
    ensures Listed(Next(s, a).store, n) && Next(s, a).store.sessions[n].watch.Fired?
  {
    assert SessionOk(s, n);
    if a.Leave? && a.conn in s.conns { assert ConnOk(s, a.conn); }
    if a.Timer? && a.serial in s.store.sessions { assert SessionOk(s, a.serial); }
  }

  /** Such a session can be left with no publisher and no connection. */
  lemma SurvivorReached() returns (run: seq<Action>)
    ensures var s := After(run);
            && Listed(s.store, 0) && s.store.sessions[0].watch.Fired?
            && s.store.sessions[0].publisher == None && s.conns == map[]
  {
    hide Inv, After, RunFrom;
    run := [];
    Started();
    run := Then(run, Publish(1, 7, 0, true), OneSession(Some(1), 0, 0, Waiting, map[1 := Publishing(7, 0)]));
    run := Then(run, Leave(1), OneSession(None, 0, 0, Waiting, map[1 := Signalling(0)]));
    run := Then(run, Signal(1), OneSession(None, 1, 1, Waiting, map[]));
    run := Then(run, Watcher(0), OneSession(None, 0, 1, Armed, map[]));
    run := Then(run, Publish(2, 7, 0, true), OneSession(Some(2), 0, 1, Armed, map[2 := Publishing(7, 0)]));
    run := Then(run, Timer(0), OneSession(Some(2), 0, 1, Fired, map[2 := Publishing(7, 0)]));
    run := Then(run, Leave(2), OneSession(None, 0, 1, Fired, map[2 := Signalling(0)]));
    run := Then(run, Signal(2), OneSession(None, 1, 2, Fired, map[]));
  }

  /** A stored session is removed in some continuation exactly when its timer has not fired. */
  lemma RemovableIff(s: State, n: nat)
    requires Inv(s) && Listed(s.store, n)
    ensures (exists run :: !Listed(RunFrom(s, run).store, n)) <==> !s.store.sessions[n].watch.Fired?
  {
    if s.store.sessions[n].watch.Fired? {
      forall run ensures Listed(RunFrom(s, run).store, n) { SurvivorStays(s, run, n); }
    } else {
      var run := Removal(s, n);
      assert !Listed(RunFrom(s, run).store, n);
    }
  }

  /** Steps still to go: a publisher to come, to leave and to signal, the watcher, the timer. */
  function Distance(s: State, n: nat): nat
    requires n in s.store.sessions
  {
    var x := s.store.sessions[n];
    if x.watch.Armed? then (if x.publisher.None? then 0 else 1)
    else if x.offline == 1 then 2
    else if exists c :: c in s.conns && s.conns[c] == Signalling(n) then 3
    else if x.publisher.Some? then 4 else 5
  }

  lemma Unused(conns: map<nat, Pc>) returns (c: nat)
    ensures c !in conns
  {
    c := Above(conns.Keys);
  }

  lemma {:induction false} Above(xs: set<nat>) returns (c: nat)
    ensures forall x :: x in xs ==> x < c
    decreases |xs|
  {
    c := 0;
    if xs != {} {
      var x :| x in xs;
      var d := Above(xs - {x});
      c := if x < d then d else x + 1;
      forall y | y in xs ensures y < c { assert y == x || y in xs - {x}; }
    }
  }

  /** The next step towards the removal of a session whose timer has not fired. */
  lemma Towards(s: State, n: nat) returns (a: Action)
    requires Inv(s) && Listed(s.store, n) && !s.store.sessions[n].watch.Fired?
    ensures Inv(Next(s, a))
    ensures if Distance(s, n) == 0 then !Listed(Next(s, a).store, n)
            else Listed(Next(s, a).store, n) && !Next(s, a).store.sessions[n].watch.Fired?
                 && Distance(Next(s, a), n) < Distance(s, n)
  {
    assert SessionOk(s, n);
    var x := s.store.sessions[n];
    if x.watch.Armed? {
      if x.publisher.Some? { assert ConnOk(s, x.publisher.value); }
      a := if x.publisher.None? then Timer(n) else Leave(x.publisher.value);
    } else if x.offline == 1 {
      a := Watcher(n);
    } else if c :| c in s.conns && s.conns[c] == Signalling(n) {
      a := Signal(c);
    } else if x.publisher.Some? {
      a := Leave(x.publisher.value);
      assert ConnOk(s, x.publisher.value);
      assert Next(s, a).conns[x.publisher.value] == Signalling(n);
    } else {
      var c := Unused(s.conns);
      a := Publish(c, x.key, x.id, true);
    }
    StepInv(s, a);
  }

  lemma {:induction false} Removal(s: State, n: nat) returns (run: seq<Action>)
    requires Inv(s) && Listed(s.store, n) && !s.store.sessions[n].watch.Fired?
    ensures !Listed(RunFrom(s, run).store, n)
    decreases Distance(s, n)
  {
    hide Next;
    var a := Towards(s, n);
    if Distance(s, n) == 0 {
      OneStep(s, a, []);
      run := [a] + [];
    } else {
      var rest := Removal(Next(s, a), n);
      OneStep(s, a, rest);
      run := [a] + rest;
    }
  }

  // ---------------------------------------------------------------- the broker's fields

  class LiveSession {
    ghost const serial: nat
    const key: nat
    var id: nat
    var publisher: Option<nat>
    var offline: nat
    ghost var sends: nat
    var watch: Watch

    ghost function View(): Session
      reads this
    {
      Session(key, id, publisher, offline, sends, watch)
    }

    constructor (ghost serial: nat, key: nat, id: nat, publisher: nat)
      ensures this.serial == serial && View() == Session(key, id, Some(publisher), 0, 0, Waiting)
    {
      this.serial := serial;
      this.key, this.id, this.publisher := key, id, Some(publisher);
      offline, sends, watch := 0, 0, Waiting;
    }

    method Adopt(publisher: nat, sessionId: nat)
      modifies this
      ensures View() == old(View()).(publisher := Some(publisher), id := sessionId)
    {
      this.publisher := Some(publisher);
      if id != sessionId {
        id := sessionId;
      }
    }

    method Orphan()
      modifies this
      ensures View() == old(View()).(publisher := None)
    {
      publisher := None;
    }

    lemma Fields()
      ensures View().publisher == publisher && View().offline == offline && View().sends == sends
      ensures View().watch == watch && View().key == key
    {
    }

    /** A send on the one-place channel, if it would not wait. */
    method TrySend() returns (sent: bool)
      modifies this
      ensures sent <==> old(offline) == 0
      ensures View() == if sent then old(View()).(offline := 1, sends := old(sends) + 1) else old(View())
    {
      sent := offline == 0;
      if sent {
        offline, sends := 1, sends + 1;
      }
    }

    /** The watcher, which takes one signal in its life. */
    method CheckOffline()
      modifies this
      ensures View() == if old(watch).Waiting? && old(offline) == 1
                        then old(View()).(offline := 0, watch := Armed) else old(View())
    {
      if watch.Waiting? && offline == 1 {
        offline, watch := 0, Armed;
      }
    }

    method Fire()
      modifies this
      ensures View() == old(View()).(watch := Fired)
    {
      watch := Fired;
    }
  }

  datatype SoftDelete = NotFound | Blocked | Deleted

  /** The object s is session number n of the store. */
  ghost predicate Mirrors(s: LiveSession, n: nat, sessions: map<nat, Session>, made: nat)
    reads s
  {
    s.serial == n < made && n in sessions && s.View() == sessions[n]
  }

  /** The broker's table and the sessions made, in step with the store. */
  ghost predicate Linked(st: Store, objects: map<nat, LiveSession>, table: map<nat, LiveSession>) {
    && st.sessions.Keys == objects.Keys && st.table.Keys == table.Keys
    && forall k :: k in table ==> k in st.table && st.table[k] in objects && table[k] == objects[st.table[k]]
  }

  lemma LinkedInsert(st: Store, objects: map<nat, LiveSession>, table: map<nat, LiveSession>, s: LiveSession, x: Session)
    requires Linked(st, objects, table) && s.serial !in objects && s.key !in table
    ensures Linked(Store(st.made + 1, st.sessions[s.serial := x], st.table[s.key := s.serial], st.total + 1),
                   objects[s.serial := s], table[s.key := s])
    ensures s.key !in st.table
  {
  }

  lemma LinkedRemove(st: Store, objects: map<nat, LiveSession>, table: map<nat, LiveSession>, key: nat)
    requires StoreOk(st) && Linked(st, objects, table)
    ensures var r := Remove(st, key); r.sessions == st.sessions && r.made == st.made && r.total == st.total - 1
    ensures key in table ==> StoreOk(Remove(st, key)) && Linked(Remove(st, key), objects, Without(table, key))
  {
  }

  /** Removing a key that is not stored leaves the counter one short. */
  lemma MissingKeyMiscounts(st: Store, key: nat)
    requires StoreOk(st)
    ensures Remove(st, key).total == |Remove(st, key).table| <==> key in st.table
  {
    if key !in st.table { assert st.table - {key} == st.table; }
  }

  class Broker {
    var sessionTotal: int
    var sessionMap: map<nat, LiveSession>
    ghost var objects: map<nat, LiveSession>
    ghost var store: Store

    constructor ()
      ensures Valid() && store == EMPTY && fresh(objects.Values)
    {
      sessionTotal, sessionMap, objects, store := 0, map[], map[], EMPTY;
    }

    ghost predicate Holds(n: nat)
      requires n in objects
      reads this`objects, this`store, objects[n]
    {
      Mirrors(objects[n], n, store.sessions, store.made)
    }

    ghost predicate Valid()
      reads this, objects.Values
    {
      && StoreOk(store) && sessionTotal == store.total && Linked(store, objects, sessionMap)
      && (forall n :: n in objects ==> Holds(n))
    }

    lemma Stored(k: nat)
      requires Valid() && k in sessionMap
      ensures k in store.table && store.table[k] in objects && store.table[k] in store.sessions
      ensures sessionMap[k] == objects[store.table[k]] && sessionMap[k] in objects.Values
      ensures sessionMap[k].View() == store.sessions[store.table[k]] && sessionMap[k].serial == store.table[k]
      ensures sessionMap[k].key == k
    {
      assert Holds(store.table[k]);
    }

    /** Records in the store what one session has become; the others are as they were. */
    ghost method Record(s: LiveSession, n: nat)
      requires StoreOk(store) && sessionTotal == store.total && Linked(store, objects, sessionMap)
      requires forall m :: m in objects && m != n ==> Holds(m)
      requires n in objects && objects[n] == s && s.serial == n < store.made && s.key == store.sessions[n].key
      modifies this`store
      ensures Valid() && store == old(store).(sessions := old(store).sessions[n := s.View()])
    {
      store := store.(sessions := store.sessions[n := s.View()]);
      forall m | m in objects ensures Holds(m) { if m != n { assert old(Holds(m)); } }
    }

    method TakeOver(s: LiveSession, publisher: nat, streamKey: nat, sessionId: nat)
      requires Valid() && streamKey in sessionMap && sessionMap[streamKey] == s
      modifies this`store, s
      ensures Valid()
      ensures var n := store.table[streamKey];
              var x := old(store).sessions[n].(publisher := Some(publisher), id := sessionId);
              store == old(store).(sessions := old(store).sessions[n := x])
    {
      hide LiveSession.View;
      Stored(streamKey);
      ghost var n := store.table[streamKey];
      s.Adopt(publisher, sessionId);
      Record(s, n);
    }

    lemma Unmade()
      requires Valid()
      ensures store.made !in objects && store.made !in store.sessions
    {
    }

    ghost method Enrol(s: LiveSession)
      requires forall m :: m in objects ==> Holds(m)
      requires s.serial == store.made && s.serial !in objects
      requires s.View() == Session(s.key, s.id, s.publisher, 0, 0, Waiting)
      modifies this`objects, this`store
      ensures forall m :: m in objects ==> Holds(m)
      ensures objects == old(objects)[s.serial := s]
      ensures store == Store(old(store).made + 1, old(store).sessions[s.serial := s.View()],
                             old(store).table[s.key := s.serial], old(store).total + 1)
    {
      hide LiveSession.View;
      objects := objects[s.serial := s];
      store := Store(store.made + 1, store.sessions[s.serial := s.View()], store.table[s.key := s.serial], store.total + 1);
      forall m | m in objects ensures Holds(m) { if m != s.serial { assert old(Holds(m)); } }
    }

    lemma Insertable(s: LiveSession)
      requires Valid() && s.key !in sessionMap && s.serial == store.made && s.publisher.Some?
      requires s.View() == Session(s.key, s.id, s.publisher, 0, 0, Waiting)
      ensures (forall n :: n in objects ==> Holds(n)) && s.serial !in objects && sessionTotal == store.total
      ensures var st := Store(store.made + 1, store.sessions[s.serial := s.View()],
                              store.table[s.key := s.serial], store.total + 1);
              && StoreOk(st) && Linked(st, objects[s.serial := s], sessionMap[s.key := s])
              && StoreOk(store) && Create(store, s.publisher.value, s.key, s.id, true) == Created(st, store.made)
    {
      Unmade();
      LinkedInsert(store, objects, sessionMap, s, s.View());
      Stores(store, s.publisher.value, s.key, s.id);
    }

    lemma MirrorAll()
      requires forall n :: n in objects ==> Holds(n)
      ensures forall n :: n in objects ==> Mirrors(objects[n], n, store.sessions, store.made)
    {
      forall n | n in objects ensures Mirrors(objects[n], n, store.sessions, store.made) { assert Holds(n); }
    }

    lemma Sealed()
      requires StoreOk(store) && sessionTotal == store.total && Linked(store, objects, sessionMap)
      requires forall n :: n in objects ==> Mirrors(objects[n], n, store.sessions, store.made)
      ensures Valid()
    {
    }

    /** Stores a new session and counts it. */
    method Insert(s: LiveSession)
      requires Valid() && s.key !in sessionMap && s.serial == store.made
      requires s.View() == Session(s.key, s.id, s.publisher, 0, 0, Waiting) && s.publisher.Some?
      modifies this
      ensures Valid() && objects == old(objects)[s.serial := s]
      ensures store == Store(old(store).made + 1, old(store).sessions[s.serial := s.View()],
                             old(store).table[s.key := s.serial], old(store).total + 1)
    {
      hide Valid, Holds, LiveSession.View, StoreOk, Linked;
      Insertable(s);
      sessionMap := sessionMap[s.key := s];
      sessionTotal := sessionTotal + 1;
      Enrol(s);
      assert forall n :: n in objects ==> Mirrors(objects[n], n, store.sessions, store.made) by { MirrorAll(); }
      Sealed();
    }

    method MakeSession(publisher: nat, streamKey: nat, sessionId: nat) returns (s: LiveSession)
      requires Valid() && streamKey !in sessionMap
      modifies this
      ensures Valid() && fresh(s) && objects == old(objects)[old(store).made := s]
      ensures store == Create(old(store), publisher, streamKey, sessionId, true).store
    {
      s := new LiveSession(store.made, streamKey, sessionId, publisher);
      Insertable(s);
      hide Holds, Valid, StoreOk, Create, Linked;
      Insert(s);
    }

    method CreateSession(publisher: nat, streamKey: nat, sessionId: nat, named: bool) returns (sess: Option<LiveSession>)
      requires Valid()
      modifies this, objects.Values
      ensures Valid()
      ensures objects == old(objects)
              || (sess.Some? && fresh(sess.value) && objects == old(objects)[old(store).made := sess.value])
      ensures match Create(old(store), publisher, streamKey, sessionId, named)
              case Created(st, n) => store == st && n in objects && sess == Some(objects[n])
              case Refused => store == old(store) && sess == None
    {
      hide Holds;
      if streamKey in sessionMap {
        Stored(streamKey);
        var s := sessionMap[streamKey];
        if s.publisher == None {
          TakeOver(s, publisher, streamKey, sessionId);
          return Some(s);
        }
        return None;
      }
      if !named {
        return None;
      }
      var s := MakeSession(publisher, streamKey, sessionId);
      return Some(s);
    }

    method ClearPublisher(s: LiveSession)
      requires Valid() && s.key in sessionMap && sessionMap[s.key] == s
      modifies this`store, s
      ensures Valid() && Clear(old(store), s.key) == Some(store)
    {
      hide LiveSession.View;
      Stored(s.key);
      s.Orphan();
      Record(s, s.serial);
    }

    method Notify(s: LiveSession) returns (sent: bool)
      requires Valid() && s.key in sessionMap && sessionMap[s.key] == s
      modifies this`store, s
      ensures Valid()
      ensures var r := Send(old(store), store.table[s.key]);
              if r.Some? then sent && store == r.value else !sent && store == old(store)
    {
      hide LiveSession.View;
      Stored(s.key);
      s.Fields();
      sent := s.TrySend();
      if sent {
        Record(s, s.serial);
      }
    }

    /** Both halves of a soft delete. When the channel is full the caller waits, with the
        publisher already cleared. */
    method SoftDelSession(streamKey: nat) returns (r: SoftDelete)
      requires Valid()
      modifies this`store, objects.Values
      ensures Valid() && objects == old(objects)
      ensures var cleared := Clear(old(store), streamKey);
              if cleared.None? then r == NotFound && store == old(store)
              else
                var sent := Send(cleared.value, old(store).table[streamKey]);
                if sent.Some? then r == Deleted && store == sent.value else r == Blocked && store == cleared.value
    {
      if streamKey !in sessionMap {
        return NotFound;
      }
      hide Valid, Send, Holds;
      Stored(streamKey);
      var s := sessionMap[streamKey];
      ClearPublisher(s);
      var sent := Notify(s);
      return if sent then Deleted else Blocked;
    }

    lemma Removable(key: nat)
      requires Valid()
      ensures var st := Remove(store, key);
              && st.total == sessionTotal - 1 && st.sessions == store.sessions && st.made == store.made
              && (forall n :: n in objects ==> Mirrors(objects[n], n, st.sessions, st.made))
              && (key in sessionMap ==> StoreOk(st) && Linked(st, objects, Without(sessionMap, key)))
    {
      LinkedRemove(store, objects, sessionMap, key);
      assert forall n :: n in objects ==> Holds(n);
    }

    /** Lowers the counter whether or not the key is there: MissingKeyMiscounts. */
    method DelSession(streamKey: nat)
      requires Valid()
      modifies this
      ensures objects == old(objects) && store == Remove(old(store), streamKey) && sessionTotal == store.total
      ensures sessionMap == Without(old(sessionMap), streamKey)
      ensures streamKey in old(sessionMap) ==> Valid()
    {
      Removable(streamKey);
      hide *;
      sessionMap := Without(sessionMap, streamKey);
      sessionTotal := sessionTotal - 1;
      store := Remove(store, streamKey);
      if streamKey in old(sessionMap) { Sealed(); }
    }

    /** The timer of a session that is still stored. */
    method OnTimer(s: LiveSession)
      requires Valid() && s.key in sessionMap && sessionMap[s.key] == s && s.watch.Armed?
      modifies this, s
      ensures Valid() && store == Expire(old(store), s.serial)
    {
      hide LiveSession.View;
      Stored(s.key);
      s.Fields();
      s.Fire();
      s.Fields();
      Record(s, s.serial);
      if s.publisher.Some? {
        return;
      }
      DelSession(s.key);
    }
  }
}
