/**
 Runs from the empty manager that reach the states in which the manager's promises end: a retry during
 an outage, two callers of one failed connection, and callers that are given a connection which is no
 longer usable.
 */
module SessionReach {
  import opened Wrappers
  import opened SessionState
  import opened SessionSteps
  import opened SessionInvariants
  import opened SessionRuns
  import opened SessionTheorems
  import opened SessionIndex

  const HOST := Ident("h", "")

  /** Auto-reconnect off, and on with one dial. */
  const OFF := ReconnectConfig(false, 0)
  const ON := ReconnectConfig(true, 1)

  /** The shared state with one connection, of HOST. */
  function With(k: Conn, channels: map<nat, nat>, closed: set<nat>, nextId: nat, nextSignal: nat): Shared {
    Shared(map[1 := k], {1}, map[HOST := 1], channels, map[], closed, false, nextId, nextSignal)
  }

  /** A reachable state and the state after a step of it. */
  lemma After(s: Sys, step: Step, s': Sys)
    requires Reachable(s) && Enabled(s, step) && Disciplined(s, step) && Next(s, step) == s'
    ensures Reachable(s')
  {
    ReachStep(s, step);
  }

  /** The next step of goroutine t, with what it does. */
  lemma Acts(m: Shared, others: map<nat, Pc>, t: nat, pc: Pc, m': Shared, pc': Pc, cfg: ReconnectConfig)
    requires t !in others && Reachable(Sys(m, others[t := pc], false))
             && CanGo(Sys(m, others[t := pc], false), pc, true)
    requires Advance(Sys(m, others[t := pc], false), t, true, cfg) == To(Sys(m, others[t := pc], false), t, m', pc')
    ensures Reachable(Sys(m', others[t := pc'], false))
  {
    hide Advance, CanGo, Reachable;
    assert others[t := pc][t := pc'] == others[t := pc'];
    After(Sys(m, others[t := pc], false), Go(t, true, cfg), Sys(m', others[t := pc'], false));
  }

  /** The same for a goroutine inside ConnectOrReuse, */
  lemma Connects(m: Shared, others: map<nat, Pc>, t: nat, pc: Pc, m': Shared, pc': Pc, cfg: ReconnectConfig)
    requires t !in others && Reachable(Sys(m, others[t := pc], false))
             && CanGo(Sys(m, others[t := pc], false), pc, true)
    requires InConnect(pc)
    requires AdvanceConnect(Sys(m, others[t := pc], false), t, true, cfg)
             == To(Sys(m, others[t := pc], false), t, m', pc')
    ensures Reachable(Sys(m', others[t := pc'], false))
  {
    hide AdvanceConnect, CanGo, Reachable;
    Acts(m, others, t, pc, m', pc', cfg);
  }

  /** inside an outage, */
  lemma Recovers(m: Shared, others: map<nat, Pc>, t: nat, pc: Pc, m': Shared, pc': Pc)
    requires t !in others && Reachable(Sys(m, others[t := pc], false))
             && CanGo(Sys(m, others[t := pc], false), pc, true)
    requires InOutage(pc)
    requires AdvanceOutage(Sys(m, others[t := pc], false), t, true) == To(Sys(m, others[t := pc], false), t, m', pc')
    ensures Reachable(Sys(m', others[t := pc'], false))
  {
    hide AdvanceOutage, CanGo, Reachable;
    Acts(m, others, t, pc, m', pc', ON);
  }

  /** or with a channel. */
  lemma Handles(m: Shared, others: map<nat, Pc>, t: nat, pc: Pc, m': Shared, pc': Pc)
    requires t !in others && Reachable(Sys(m, others[t := pc], false))
             && CanGo(Sys(m, others[t := pc], false), pc, true)
    requires !InConnect(pc) && !InOutage(pc)
    requires AdvanceChannel(Sys(m, others[t := pc], false), t, true) == To(Sys(m, others[t := pc], false), t, m', pc')
    ensures Reachable(Sys(m', others[t := pc'], false))
  {
    hide AdvanceChannel, CanGo, Reachable;
    Acts(m, others, t, pc, m', pc', ON);
  }

  // ----- pieces of runs -----

  /** Goroutine 0 has found nothing and dials. */
  lemma Dialing0()
    ensures Reachable(Sys(INIT.(pending := map[HOST := 0], nextSignal := 1), map[0 := Dialing(HOST, 0)], false))
  {
    ReachStart();
    var s1 := Sys(INIT, map[0 := Looking(HOST)], false);
    After(START, Connect(0, HOST), s1);
    After(s1, Go(0, true, ON), Sys(INIT.(pending := map[HOST := 0], nextSignal := 1), map[0 := Dialing(HOST, 0)],
        false));
  }

  /** Its dial succeeds, whatever the others do meanwhile. */
  lemma Connected0(others: map<nat, Pc>, cfg: ReconnectConfig)
    requires 0 !in others
    requires Reachable(Sys(INIT.(pending := map[HOST := 0], nextSignal := 1), others[0 := Dialing(HOST, 0)], false))
    ensures Reachable(Sys(With(NewConn(HOST, cfg, 1), map[], {0}, 2, 2), others[0 := Returned(HOST, Some(1))], false))
  {
    var m0 := INIT.(pending := map[HOST := 0], nextSignal := 1);
    var m1, m2 := With(NewConn(HOST, cfg, 1), map[], {}, 2, 2), With(NewConn(HOST, cfg, 1), map[], {0}, 2, 2);
    Connects(m0, others, 0, Dialing(HOST, 0), m0, DialDone(HOST, 0, cfg), cfg);
    Publishes(m0, m1, cfg);
    Connects(m0, others, 0, DialDone(HOST, 0, cfg), m1, OpeningGate(HOST, 0, Some(1)), cfg);
    assert Close(m1, 0) == m2;
    hide Publish, Close;
    Connects(m1, others, 0, OpeningGate(HOST, 0, Some(1)), m2, Returned(HOST, Some(1)), cfg);
  }

  lemma Publishes(m: Shared, m': Shared, cfg: ReconnectConfig)
    requires m == INIT.(pending := map[HOST := 0], nextSignal := 1)
             && m' == With(NewConn(HOST, cfg, 1), map[], {}, 2, 2)
    ensures Publish(m, HOST, cfg) == m'
  {
    var p := Publish(m, HOST, cfg);
    assert p.heap == m'.heap && p.connections == m'.connections && p.connByIdent == m'.connByIdent
           && p.pending == m'.pending;
  }

  /** A connection that is up dies: goroutine t notices. */
  lemma Dies(t: nat, k: Conn, others: map<nat, Pc>, channels: map<nat, nat>, nextId: nat)
    requires t !in others && k.phase == Connected && k.generation == 0 && k.deaths == []
    requires Reachable(Sys(With(k, channels, {0}, nextId, 2), others, false))
    ensures Reachable(Sys(With(k.(phase := Reconnecting, deaths := [0], dials := 0), channels, {0}, nextId, 2),
                          others[t := Died(1)], false))
  {
    var m, m' := With(k, channels, {0}, nextId, 2), With(k.(phase := Reconnecting, deaths := [0], dials := 0),
        channels, {0}, nextId, 2);
    var s, s1 := Sys(m, others, false), Sys(m, others[t := Watching(1, 0)], false);
    After(s, Observe(t, 1), s1);
    assert k.deaths + [0] == [0];
    assert MarkDead(m, 1, 0).heap == m'.heap;
    Recovers(m, others, t, Watching(1, 0), m', Died(1));
  }

  // ----- retries -----

  /** The connection has failed and its signal is about to be closed by goroutine 1. */
  function Failing0(): Sys {
    Sys(With(NewConn(HOST, OFF, 1).(phase := Failed, deaths := [0]), map[], {0}, 2, 2),
        map[0 := Returned(HOST, Some(1)), 1 := ClosingDone(1, false)], false)
  }

  lemma FailingReached()
    ensures Reachable(Failing0())
  {
    Dialing0();
    assert map[][0 := Dialing(HOST, 0)] == map[0 := Dialing(HOST, 0)];
    Connected0(map[], OFF);
    var others := map[0 := Returned(HOST, Some(1))];
    assert map[][0 := Returned(HOST, Some(1))] == others;
    Dies(1, NewConn(HOST, OFF, 1), others, map[], 2);
    var k := NewConn(HOST, OFF, 1).(phase := Reconnecting, deaths := [0]);
    var s := Sys(With(k, map[], {0}, 2, 2), others[1 := Died(1)], false);
    Recovers(s.m, others, 1, Died(1), s.m, Failing(1, false));
    FailingReached1(others, k);
  }

  lemma FailingReached1(others: map<nat, Pc>, k: Conn)
    requires others == map[0 := Returned(HOST, Some(1))] && k
             == NewConn(HOST, OFF, 1).(phase := Reconnecting, deaths := [0])
    requires Reachable(Sys(With(k, map[], {0}, 2, 2), others[1 := Failing(1, false)], false))
    ensures Reachable(Failing0())
  {
    var m := With(k, map[], {0}, 2, 2);
    assert SetFailed(m, 1).heap == Failing0().m.heap;
    assert others[1 := ClosingDone(1, false)] == Failing0().threads;
    Recovers(m, others, 1, Failing(1, false), Failing0().m, ClosingDone(1, false));
  }

  /** A retry can be checked while the outage has not closed its signal; some continuation then panics. */
  lemma RetryDuringOutage() returns (steps: seq<Step>)
    ensures Reachable(Failing0()) && Enabled(Failing0(), Retry(2, 1)) && !Idle(Failing0(), 1)
    ensures var s' := Next(Failing0(), Retry(2, 1));
      CanRun(s', steps) && End(s', steps).m.panicked
  {
    FailingReached();
    assert Owns(Failing0().threads[1], 1);
    steps := RetryWhileClosing(Next(Failing0(), Retry(2, 1)), 2, 1, 1, false);
  }

  /** The outage is over: the connection has failed and its signal is closed. */
  function Failed0(threads: map<nat, Pc>): Sys {
    Sys(With(NewConn(HOST, OFF, 1).(phase := Failed, deaths := [0]), map[], {0, 1}, 2, 2),
        map[0 := Returned(HOST, Some(1)), 1 := Stopped] + threads, false)
  }

  lemma FailedReached()
    ensures Reachable(Failed0(map[]))
  {
    FailingReached();
    var others := map[0 := Returned(HOST, Some(1))];
    assert Failing0().threads == others[1 := ClosingDone(1, false)] && Failed0(map[]).threads == others[1 := Stopped];
    assert Close(Failing0().m, 1) == Failed0(map[]).m;
    Recovers(Failing0().m, others, 1, ClosingDone(1, false), Failed0(map[]).m, Stopped);
  }

  /** Two retries can both pass the check; some continuation then panics. */
  lemma TwoRetries() returns (steps: seq<Step>)
    ensures var s := Failed0(map[2 := Retrying(1)]);
      Reachable(s) && Enabled(s, Retry(3, 1)) && !Idle(s, 1)
      && CanRun(Next(s, Retry(3, 1)), steps) && End(Next(s, Retry(3, 1)), steps).m.panicked
  {
    FailedReached();
    var s := Failed0(map[2 := Retrying(1)]);
    assert Failed0(map[]).threads[2 := Retrying(1)] == s.threads;
    After(Failed0(map[]), Retry(2, 1), s);
    assert Owns(s.threads[2], 1);
    steps := RetryTwice(Next(s, Retry(3, 1)), 3, 2, 1);
  }

  // ----- the index -----

  /** Two callers can look the same failed connection up; a live connection is then lost from the index. */
  lemma TwoCallers() returns (steps: seq<Step>)
    ensures var s := Failed0(map[2 := Looking(HOST), 3 := Looking(HOST)]);
      Reachable(s) && CanRun(s, steps) && Undialled(End(s, steps).m, HOST, s.m.nextId)
  {
    FailedReached();
    var s1 := Failed0(map[2 := Looking(HOST)]);
    var s := Failed0(map[2 := Looking(HOST), 3 := Looking(HOST)]);
    assert Failed0(map[]).threads[2 := Looking(HOST)] == s1.threads;
    After(Failed0(map[]), Connect(2, HOST), s1);
    assert s1.threads[3 := Looking(HOST)] == s.threads;
    After(s1, Connect(3, HOST), s);
    ReachInv(s);
    steps := TwoCallersLoseTheIndex(s, 2, 3, HOST);
  }

  // ----- connections that callers cannot use -----

  /** A caller that waits for a dial can be given a connection that has died since. */
  lemma JoinerGetsDeadConnection() returns (s: Sys)
    ensures Reachable(s) && 1 in s.threads && s.threads[1] == PastGate(HOST) && CanGo(s, s.threads[1], true)
    ensures var s' := AdvanceConnect(s, 1, true, ON);
      s'.threads[1] == Returned(HOST, Some(1)) && s'.m.heap.Keys == {1} && s'.m.heap[1].phase == Reconnecting
  {
    Dialing0();
    var m0 := INIT.(pending := map[HOST := 0], nextSignal := 1);
    var s0 := Sys(m0, map[0 := Dialing(HOST, 0)], false);
    var s1 := Sys(m0, map[0 := Dialing(HOST, 0), 1 := Looking(HOST)], false);
    After(s0, Connect(1, HOST), s1);
    var waiting := map[1 := AwaitingGate(HOST, 0)];
    var s2 := Sys(m0, waiting[0 := Dialing(HOST, 0)], false);
    assert s1.threads[1 := AwaitingGate(HOST, 0)] == s2.threads;
    After(s1, Go(1, true, ON), s2);
    Connected0(waiting, ON);
    var others := waiting[0 := Returned(HOST, Some(1))];
    Dies(2, NewConn(HOST, ON, 1), others, map[], 2);
    s := JoinerPasses(others[2 := Died(1)]);
  }

  lemma JoinerPasses(others: map<nat, Pc>) returns (s: Sys)
    requires 1 in others && others[1] == AwaitingGate(HOST, 0)
    requires Reachable(Sys(With(NewConn(HOST, ON, 1).(phase := Reconnecting, deaths := [0], dials := 0), map[], {0},
             2, 2), others, false))
    ensures Reachable(s) && 1 in s.threads && s.threads[1] == PastGate(HOST) && CanGo(s, s.threads[1], true)
    ensures var s' := AdvanceConnect(s, 1, true, ON);
      s'.threads[1] == Returned(HOST, Some(1)) && s'.m.heap.Keys == {1} && s'.m.heap[1].phase == Reconnecting
  {
    var s0 := Sys(With(NewConn(HOST, ON, 1).(phase := Reconnecting, deaths := [0], dials := 0), map[], {0}, 2, 2),
        others, false);
    s := s0.(threads := others[1 := PastGate(HOST)]);
    After(s0, Go(1, true, ON), s);
  }

  /** Goroutine 3 opens a channel on the connection. */
  lemma Opens(others: map<nat, Pc>)
    requires 3 !in others && Reachable(Sys(With(NewConn(HOST, ON, 1), map[], {0}, 2, 2), others, false))
    ensures Reachable(Sys(With(NewConn(HOST, ON, 1).(refs := 1), map[2 := 1], {0}, 3, 2), others[3 := Stopped], false))
  {
    var k := NewConn(HOST, ON, 1);
    var m, m1, m2 := With(k, map[], {0}, 2, 2), With(k.(refs := 1), map[], {0}, 2, 2), With(k.(refs := 1),
        map[2 := 1], {0}, 3, 2);
    After(Sys(m, others, false), Open(3, 1), Sys(m, others[3 := Opening(1)], false));
    assert IncrRefs(m, 1).heap == m1.heap && InsertChannel(m1, 1).channels == m2.channels;
    hide IncrRefs, InsertChannel;
    OpensSteps(m, m1, m2, others);
  }

  lemma OpensSteps(m: Shared, m1: Shared, m2: Shared, others: map<nat, Pc>)
    requires 3 !in others && 1 in m.heap && Reachable(Sys(m, others[3 := Opening(1)], false))
    requires IncrRefs(m, 1) == m1 && InsertChannel(m1, 1) == m2
    ensures Reachable(Sys(m2, others[3 := Stopped], false))
  {
    hide IncrRefs, InsertChannel;
    Handles(m, others, 3, Opening(1), m1, Inserting(1));
    Handles(m1, others, 3, Inserting(1), m2, Stopped);
  }

  /** The connection with one channel, in its first outage and after it. */
  const LOST := NewConn(HOST, ON, 1).(refs := 1, phase := Reconnecting, deaths := [0])
  const BACK := LOST.(dials := 1, phase := Connected, generation := 1, done := 2)

  /** Goroutine 4 reconnects at the first attempt. */
  lemma Reconnects(others: map<nat, Pc>)
    requires 4 !in others && Reachable(Sys(With(LOST, map[2 := 1], {0}, 3, 2), others[4 := Died(1)], false))
    ensures Reachable(Sys(With(BACK, map[2 := 1], {0, 1}, 3, 3), others[4 := Stopped], false))
  {
    var m := With(LOST, map[2 := 1], {0}, 3, 2);
    Recovers(m, others, 4, Died(1), m, Looping(1, 0));
    assert m.channels[2] == 1 && HasChannels(m, 1);
    Recovers(m, others, 4, Looping(1, 0), m, Sleeping(1, 0));
    Recovers(m, others, 4, Sleeping(1, 0), m, Redialing(1, 0));
    Revives(others);
  }

  lemma Revives(others: map<nat, Pc>)
    requires 4 !in others && Reachable(Sys(With(LOST, map[2 := 1], {0}, 3, 2), others[4 := Redialing(1, 0)], false))
    ensures Reachable(Sys(With(BACK, map[2 := 1], {0, 1}, 3, 3), others[4 := Stopped], false))
  {
    var m := With(LOST, map[2 := 1], {0}, 3, 2);
    var m1 := With(LOST.(dials := 1), map[2 := 1], {0}, 3, 2);
    var m2 := With(BACK, map[2 := 1], {0}, 3, 3);
    var m3 := With(BACK, map[2 := 1], {0, 1}, 3, 3);
    assert CountDial(m, 1).heap == m1.heap && Revive(m1, 1).heap == m2.heap && Close(m2, 1) == m3;
    hide CountDial, Revive, Close;
    RevivesSteps(m, m1, m2, m3, others);
  }

  lemma RevivesSteps(m: Shared, m1: Shared, m2: Shared, m3: Shared, others: map<nat, Pc>)
    requires 4 !in others && 1 in m.heap && 1 in m1.heap && m1.heap[1].done == 1
    requires Reachable(Sys(m, others[4 := Redialing(1, 0)], false))
    requires CountDial(m, 1) == m1 && Revive(m1, 1) == m2 && Close(m2, 1) == m3
    ensures Reachable(Sys(m3, others[4 := Stopped], false))
  {
    hide CountDial, Revive, Close;
    Recovers(m, others, 4, Redialing(1, 0), m1, Reviving(1));
    Recovers(m1, others, 4, Reviving(1), m2, ClosingOld(1));
    ClosesOld(m2, m3, others);
  }

  lemma ClosesOld(m: Shared, m': Shared, others: map<nat, Pc>)
    requires 4 !in others && Reachable(Sys(m, others[4 := ClosingOld(1)], false)) && Close(m, 1) == m'
    ensures Reachable(Sys(m', others[4 := Stopped], false))
  {
    hide Close;
    Recovers(m, others, 4, ClosingOld(1), m', Stopped);
  }

  /** Goroutine 5 closes the channel, the last one, and tears the connection down. */
  lemma ClosesLast(others: map<nat, Pc>)
    requires 5 !in others && Reachable(Sys(With(BACK, map[2 := 1], {0, 1}, 3, 3), others, false))
    ensures var m := With(BACK.(refs := 0), map[], {0, 1}, 3, 3).(connections := {}, connByIdent := map[]);
      Reachable(Sys(m, others[5 := Stopped], false))
  {
    var m, m1 := With(BACK, map[2 := 1], {0, 1}, 3, 3), With(BACK, map[], {0, 1}, 3, 3);
    var m2 := With(BACK.(refs := 0), map[], {0, 1}, 3, 3);
    var m3 := m2.(connections := {}, connByIdent := map[]);
    assert RemoveChannel(m, 2).channels == m1.channels;
    After(Sys(m, others, false), CloseChannel(5, 2), Sys(m1, others[5 := Decrementing(1)], false));
    assert DecrRefs(m1, 1).heap == m2.heap && Teardown(m2, 1) == m3;
    hide DecrRefs, Teardown;
    ClosesSteps(m1, m2, m3, others);
  }

  lemma ClosesSteps(m1: Shared, m2: Shared, m3: Shared, others: map<nat, Pc>)
    requires 5 !in others && 1 in m1.heap && 1 in m2.heap && LastRef(m1, 1)
    requires Reachable(Sys(m1, others[5 := Decrementing(1)], false)) && DecrRefs(m1, 1) == m2 && Teardown(m2, 1) == m3
    ensures Reachable(Sys(m3, others[5 := Stopped], false))
  {
    hide DecrRefs, Teardown, LastRef;
    Handles(m1, others, 5, Decrementing(1), m2, TearingDown(1));
    Handles(m2, others, 5, TearingDown(1), m3, Stopped);
  }

  /** A caller that waits for a reconnect can be given a connection that has been torn down since. */
  lemma WaiterGetsTornDownConnection() returns (s: Sys)
    ensures Reachable(s) && 1 in s.threads && s.threads[1] == Rechecking(HOST, 1) && CanGo(s, s.threads[1], true)
    ensures var s' := AdvanceConnect(s, 1, true, ON);
      s'.threads[1] == Returned(HOST, Some(1)) && Gone(s'.m, 1)
  {
    Dialing0();
    assert map[][0 := Dialing(HOST, 0)] == map[0 := Dialing(HOST, 0)];
    Connected0(map[], ON);
    var done := map[0 := Returned(HOST, Some(1))];
    assert map[][0 := Returned(HOST, Some(1))] == done;
    Opens(done);
    var after := done[3 := Stopped];
    Dies(4, NewConn(HOST, ON, 1).(refs := 1), after, map[2 := 1], 3);
    WaiterWaits(after);
    var waiting := after[1 := AwaitingDone(HOST, 1, 1)];
    Reconnects(waiting);
    s := WaiterRechecks(waiting[4 := Stopped]);
  }

  lemma WaiterWaits(others: map<nat, Pc>)
    requires 1 !in others && 4 !in others && Reachable(Sys(With(LOST, map[2 := 1], {0}, 3, 2), others[4 := Died(1)],
             false))
    ensures Reachable(Sys(With(LOST, map[2 := 1], {0}, 3, 2), others[1 := AwaitingDone(HOST, 1, 1)][4 := Died(1)],
            false))
  {
    var m := With(LOST, map[2 := 1], {0}, 3, 2);
    var died := others[4 := Died(1)];
    After(Sys(m, died, false), Connect(1, HOST), Sys(m, died[1 := Looking(HOST)], false));
    Connects(m, died, 1, Looking(HOST), m, AwaitingDone(HOST, 1, 1), ON);
    assert died[1 := AwaitingDone(HOST, 1, 1)] == others[1 := AwaitingDone(HOST, 1, 1)][4 := Died(1)];
  }

  lemma WaiterRechecks(others: map<nat, Pc>) returns (s: Sys)
    requires 1 in others && others[1] == AwaitingDone(HOST, 1, 1) && 5 !in others
    requires Reachable(Sys(With(BACK, map[2 := 1], {0, 1}, 3, 3), others, false))
    ensures Reachable(s) && 1 in s.threads && s.threads[1] == Rechecking(HOST, 1) && CanGo(s, s.threads[1], true)
    ensures var s' := AdvanceConnect(s, 1, true, ON);
      s'.threads[1] == Returned(HOST, Some(1)) && Gone(s'.m, 1)
  {
    var m := With(BACK, map[2 := 1], {0, 1}, 3, 3);
    var again := others[1 := Rechecking(HOST, 1)];
    After(Sys(m, others, false), Go(1, true, ON), Sys(m, again, false));
    ClosesLast(again);
    s := Sys(With(BACK.(refs := 0), map[], {0, 1}, 3, 3).(connections := {}, connByIdent := map[]),
        again[5 := Stopped], false);
  }
}
