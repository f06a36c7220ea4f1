/**
 Every disciplined step keeps the invariant.
 */
module SessionSafety {
  import opened Wrappers
  import opened SessionState
  import opened SessionSteps
  import opened SessionInvariants
  import opened SessionPreserve
  import opened SessionSections

  // ----- who else could interfere -----

  lemma SoleOwner(s: Sys, t: nat, c: nat, u: nat)
    requires Core(s) && t in s.threads && Owns(s.threads[t], c)
    requires u in s.threads && u != t
    ensures !Owns(s.threads[u], c)
  {
    assert !Rivals(s.m, s.threads[t], s.threads[u]);
    assert PcOk(s.m, s.threads[t]) && PcOk(s.m, s.threads[u]);
  }

  lemma SoleCloser(s: Sys, t: nat, u: nat)
    requires Core(s) && t in s.threads && u in s.threads && u != t
    requires Closes(s.m, s.threads[t]).Some?
    ensures Closes(s.m, s.threads[u]) != Closes(s.m, s.threads[t])
  {
    assert !Rivals(s.m, s.threads[t], s.threads[u]);
  }

  /** A signal somebody is going to close is still open. */
  lemma ClosesOpen(s: Sys, t: nat)
    requires Core(s) && t in s.threads && Closes(s.m, s.threads[t]).Some?
    ensures Closes(s.m, s.threads[t]).value !in s.m.closed
    ensures Closes(s.m, s.threads[t]).value < s.m.nextSignal
  {
    var pc := s.threads[t];
    assert PcOk(s.m, pc);
    ClosesAllocated(s.m, pc);
    match pc
    case Died(c) => assert OutageOk(s, c);
    case Looping(c, _) => assert OutageOk(s, c);
    case Sleeping(c, _) => assert OutageOk(s, c);
    case Redialing(c, _) => assert OutageOk(s, c);
    case Reviving(c) => assert OutageOk(s, c);
    case Failing(c, _) => assert OutageOk(s, c);
    case _ =>
  }

  /** What Core says about one goroutine and about one connection. */
  lemma CoreAt(s: Sys, t: nat)
    requires Core(s) && t in s.threads
    ensures PcOk(s.m, s.threads[t])
  {}

  lemma CoreConn(s: Sys, c: nat)
    requires Core(s) && c in s.m.heap
    ensures OutageOk(s, c) && s.m.heap[c].done < s.m.nextSignal
    ensures s.m.heap[c].deaths == Upto(s.m.heap[c].generation + (if s.m.heap[c].phase == Connected then 0 else 1))
    ensures forall c' :: c' in s.m.heap && c' != c ==> s.m.heap[c'].done != s.m.heap[c].done
    ensures c == LOCAL ==> s.m.heap[c].phase == Connected
    ensures forall g :: g in s.m.closed ==> g < s.m.nextSignal
    ensures forall c' :: c' in s.m.heap ==> s.m.heap[c'].done < s.m.nextSignal
  {}

  lemma CoreMaps(s: Sys)
    requires Core(s)
    ensures MapsOk(s.m)
  {}

  // ----- steps that leave the shared state alone -----

  ghost predicate QuietMove(s: Sys, t: nat, pc': Pc) {
    && PcOk(s.m, pc')
    && Closes(s.m, pc') == Closes(s.m, At(s, t))
    && (forall c :: Owns(At(s, t), c) ==> Owns(pc', c))
    && (forall i :: Dials(At(s, t), i) ==> Dials(pc', i))
    && WaitsSafely(s, t, pc')
    && (pc'.Retrying? ==> Idle(s, pc'.conn))
  }

  lemma Quiet(s: Sys, t: nat, pc': Pc)
    requires Core(s) && QuietMove(s, t, pc')
    ensures Core(To(s, t, s.m, pc'))
  {
    forall u | u in s.threads && u != t
      ensures Unaware(s.m, s.m, s.threads[u])
    {}
    forall c | c in s.m.heap
      ensures OutageCarried(s, t, s.m, pc', c)
    {
      assert OutageOk(s, c);
    }
    CoreTo(s, t, s.m, pc');
  }

  // ----- steps that touch one Connection -----

  ghost predicate EditMove(s: Sys, t: nat, c: nat, k: Conn, n: nat, pc': Pc) {
    var m' := Edit(s.m, c, k, n);
    && EditOk(s.m, c, k, n)
    && k.deaths == Upto(k.generation + (if k.phase == Connected then 0 else 1))
    && PcOk(m', pc')
    && (forall u :: u in s.threads && u != t && Owns(s.threads[u], c) ==>
          k.phase == s.m.heap[c].phase && k.done == s.m.heap[c].done && k.dials == s.m.heap[c].dials)
    && !pc'.Retrying?
    && ClosesFairly(s, t, m', pc')
    && LeavesNothingOpen(s, t, m', pc')
    && OutageCarried(s, t, m', pc', c)
    && (forall c' :: c' != c && Owns(At(s, t), c') ==> Owns(pc', c'))
    && (forall i :: !Dials(At(s, t), i))
    && !pc'.AwaitingDone? && !pc'.AwaitingGate?
  }

  lemma EditTo(s: Sys, t: nat, c: nat, k: Conn, n: nat, pc': Pc)
    requires Core(s) && EditMove(s, t, c, k, n, pc')
    ensures Core(To(s, t, Edit(s.m, c, k, n), pc'))
  {
    var m' := Edit(s.m, c, k, n);
    CoreMaps(s);
    EditMaps(s.m, c, k, n);
    EditDeaths(s, c, k, n);
    forall u | u in s.threads && u != t
      ensures Unaware(s.m, m', s.threads[u])
    {
      CoreAt(s, u);
      hide Core;
      EditUnaware(s.m, c, k, n, s.threads[u]);
    }
    forall c' | c' in m'.heap
      ensures OutageCarried(s, t, m', pc', c')
    {
      if c' != c { assert OutageOk(s, c'); }
    }
    hide Core, Unaware, OutageCarried, MapsOk, DeathsOk, EditOk;
    CoreTo(s, t, m', pc');
  }

  lemma EditDeaths(s: Sys, c: nat, k: Conn, n: nat)
    requires Core(s) && k.deaths == Upto(k.generation + (if k.phase == Connected then 0 else 1))
    ensures DeathsOk(Edit(s.m, c, k, n)) && !Edit(s.m, c, k, n).panicked
  {
    hide Upto;
  }

  // ----- ConnectOrReuse -----

  /** Whoever runs the outage of a reconnecting connection closes its reconnectDone. */
  lemma OutageCloses(s: Sys, c: nat)
    requires Core(s) && c in s.m.heap && s.m.heap[c].phase == Reconnecting
    ensures HasCloser(s, s.m.heap[c].done)
  {
    assert OutageOk(s, c);
    var w :| w in s.threads && Owns(s.threads[w], c);
    assert PcOk(s.m, s.threads[w]);
  }

  /** Whoever dials a pending identity closes its gate. */
  lemma DialCloses(s: Sys, i: Ident)
    requires Core(s) && i in s.m.pending
    ensures HasCloser(s, s.m.pending[i])
  {
    var w :| w in s.threads && Dials(s.threads[w], i);
    assert PcOk(s.m, s.threads[w]);
  }

  lemma LookFound(s: Sys, t: nat, i: Ident)
    requires Core(s) && t in s.threads && s.threads[t] == Looking(i) && i in s.m.connByIdent
    ensures Core(To(s, t, s.m, AfterLookup(i, Lookup(s.m, i).1)))
  {
    CoreMaps(s);
    var c := s.m.connByIdent[i];
    CoreConn(s, c);
    assert c in s.m.heap && s.m.heap[c].ident == i;
    hide Core, MapsOk;
    if s.m.heap[c].phase == Reconnecting { OutageCloses(s, c); }
    Quiet(s, t, AfterLookup(i, Lookup(s.m, i).1));
  }

  lemma LookInFlight(s: Sys, t: nat, i: Ident)
    requires Core(s) && t in s.threads && s.threads[t] == Looking(i) && i !in s.m.connByIdent && i in s.m.pending
    ensures Core(To(s, t, s.m, AwaitingGate(i, s.m.pending[i])))
  {
    DialCloses(s, i);
    Quiet(s, t, AwaitingGate(i, s.m.pending[i]));
  }

  lemma ReserveGate(s: Sys, i: Ident)
    requires Core(s) && i !in s.m.connByIdent && i !in s.m.pending
    ensures var m' := Lookup(s.m, i).0;
      DeathsOk(m') && !m'.panicked && PcOk(m', Dialing(i, s.m.nextSignal)) && m'.closed == s.m.closed
  {}

  lemma LookMustDial(s: Sys, t: nat, i: Ident)
    requires Core(s) && t in s.threads && s.threads[t] == Looking(i) && i !in s.m.connByIdent && i !in s.m.pending
    ensures Core(To(s, t, Lookup(s.m, i).0, Dialing(i, s.m.nextSignal)))
  {
    var m' := Lookup(s.m, i).0;
    ReserveMaps(s.m, i);
    forall u | u in s.threads && u != t
      ensures Unaware(s.m, m', s.threads[u])
    {
      ReserveUnaware(s.m, i, s.threads[u]);
    }
    forall c | c in m'.heap
      ensures OutageCarried(s, t, m', Dialing(i, s.m.nextSignal), c)
    {
      assert OutageOk(s, c);
    }
    ReserveGate(s, i);
    hide Core, MapsOk, DeathsOk, Unaware, OutageCarried;
    CoreTo(s, t, m', Dialing(i, s.m.nextSignal));
  }

  /** Dropping a connection, tearing it down and the channel table concern no outage and no dial. */
  lemma MapsTo(s: Sys, t: nat, m': Shared, pc': Pc)
    requires Core(s) && MapsOk(m')
    requires m' == s.m.(connections := m'.connections, connByIdent := m'.connByIdent, channels := m'.channels,
             nextId := m'.nextId)
    requires QuietMove(s, t, pc') && !pc'.AwaitingDone? && !pc'.AwaitingGate?
    ensures Core(To(s, t, m', pc'))
  {
    MapsUnaware(s.m, m', pc');
    forall u | u in s.threads && u != t
      ensures Unaware(s.m, m', s.threads[u])
    {
      MapsUnaware(s.m, m', s.threads[u]);
    }
    forall c | c in m'.heap
      ensures OutageCarried(s, t, m', pc', c)
    {
      assert OutageOk(s, c);
    }
    CoreTo(s, t, m', pc');
  }

  lemma AbandonOthers(s: Sys, t: nat, i: Ident)
    requires Core(s) && t in s.threads && s.threads[t].DialFailed? && s.threads[t].ident == i
    ensures OthersUnaware(s, t, AbandonDial(s.m, i)) && MapsOk(AbandonDial(s.m, i))
  {
    assert PcOk(s.m, s.threads[t]);
    forall u | u in s.threads && u != t
      ensures Unaware(s.m, AbandonDial(s.m, i), s.threads[u])
    {
      SoleCloser(s, t, u);
      AbandonDialUnaware(s.m, i, s.threads[u]);
    }
  }

  lemma DialFails(s: Sys, t: nat, i: Ident, g: nat)
    requires Core(s) && t in s.threads && s.threads[t] == DialFailed(i, g)
    ensures Core(To(s, t, AbandonDial(s.m, i), OpeningGate(i, g, None)))
  {
    var m' := AbandonDial(s.m, i);
    var pc' := OpeningGate(i, g, None);
    assert PcOk(s.m, s.threads[t]);
    AbandonOthers(s, t, i);
    assert PcOk(m', pc') by { assert Detached(s.m, g); }
    forall c | c in m'.heap
      ensures OutageCarried(s, t, m', pc', c)
    {
      assert OutageOk(s, c);
    }
    CoreTo(s, t, m', pc');
  }

  lemma PublishOthers(s: Sys, t: nat, i: Ident, cfg: ReconnectConfig)
    requires Core(s) && t in s.threads && s.threads[t].DialDone? && s.threads[t].ident == i
    ensures OthersUnaware(s, t, Publish(s.m, i, cfg)) && MapsOk(Publish(s.m, i, cfg))
  {
    assert PcOk(s.m, s.threads[t]);
    PublishMaps(s.m, i, cfg);
    forall u | u in s.threads && u != t
      ensures Unaware(s.m, Publish(s.m, i, cfg), s.threads[u])
    {
      SoleCloser(s, t, u);
      PublishUnaware(s.m, i, cfg, s.threads[u]);
    }
  }

  lemma PublishOutages(s: Sys, t: nat, i: Ident, g: nat, cfg: ReconnectConfig)
    requires Core(s) && t in s.threads && s.threads[t] == DialDone(i, g, cfg)
    ensures forall c :: c in Publish(s.m, i, cfg).heap ==>
      OutageCarried(s, t, Publish(s.m, i, cfg), OpeningGate(i, g, Some(s.m.nextId)), c)
  {
    var m' := Publish(s.m, i, cfg);
    assert s.m.nextId !in s.m.heap;
    forall c | c in m'.heap
      ensures OutageCarried(s, t, m', OpeningGate(i, g, Some(s.m.nextId)), c)
    {
      if c in s.m.heap { assert OutageOk(s, c); }
    }
  }

  lemma PublishDeaths(m: Shared, i: Ident, cfg: ReconnectConfig)
    requires MapsOk(m) && DeathsOk(m)
    ensures DeathsOk(Publish(m, i, cfg))
  {
    assert m.nextId !in m.heap;
  }

  lemma PublishPc(m: Shared, i: Ident, g: nat, cfg: ReconnectConfig)
    requires MapsOk(m) && PcOk(m, DialDone(i, g, cfg))
    ensures PcOk(Publish(m, i, cfg), OpeningGate(i, g, Some(m.nextId)))
  {
    assert m.nextId !in m.heap;
  }

  lemma DialSucceeds(s: Sys, t: nat, i: Ident, g: nat, cfg: ReconnectConfig)
    requires Core(s) && t in s.threads && s.threads[t] == DialDone(i, g, cfg)
    ensures Core(To(s, t, Publish(s.m, i, cfg), OpeningGate(i, g, Some(s.m.nextId))))
  {
    var m' := Publish(s.m, i, cfg);
    var pc' := OpeningGate(i, g, Some(s.m.nextId));
    assert PcOk(s.m, s.threads[t]);
    PublishOthers(s, t, i, cfg);
    PublishOutages(s, t, i, g, cfg);
    PublishDeaths(s.m, i, cfg);
    PublishPc(s.m, i, g, cfg);
    CoreTo(s, t, m', pc');
  }

  // ----- closing a signal -----

  lemma CloseTo(s: Sys, t: nat, d: nat, pc': Pc)
    requires Core(s) && t in s.threads && Closes(s.m, s.threads[t]) == Some(d)
    requires Closes(Close(s.m, d), pc') == None && PcOk(Close(s.m, d), pc')
    requires !pc'.Retrying? && !pc'.AwaitingDone? && !pc'.AwaitingGate?
    requires forall i :: !Dials(s.threads[t], i)
    requires forall c :: Owns(s.threads[t], c) && c in s.m.heap ==> s.m.heap[c].phase == Failed && s.m.heap[c].done == d
    requires forall c :: c in s.m.heap && s.m.heap[c].done == d ==> s.m.heap[c].phase == Failed
    ensures Core(To(s, t, Close(s.m, d), pc'))
  {
    var m' := Close(s.m, d);
    ClosesOpen(s, t);
    forall u | u in s.threads && u != t
      ensures Unaware(s.m, m', s.threads[u])
    {
      SoleCloser(s, t, u);
      CloseUnaware(s.m, d, s.threads[u]);
    }
    forall c | c in m'.heap
      ensures OutageCarried(s, t, m', pc', c)
    {
      assert OutageOk(s, c);
    }
    CoreTo(s, t, m', pc');
  }

  lemma OpenGate(s: Sys, t: nat, i: Ident, g: nat, r: Option<nat>)
    requires Core(s) && t in s.threads && s.threads[t] == OpeningGate(i, g, r)
    ensures Core(To(s, t, Close(s.m, g), Returned(i, r)))
  {
    assert PcOk(s.m, s.threads[t]);
    CloseTo(s, t, g, Returned(i, r));
  }

  lemma CloseOldDone(s: Sys, t: nat, d: nat)
    requires Core(s) && t in s.threads && s.threads[t] == ClosingOld(d)
    ensures Core(To(s, t, Close(s.m, d), Stopped))
  {
    assert PcOk(s.m, s.threads[t]);
    CloseTo(s, t, d, Stopped);
  }

  lemma CloseDone(s: Sys, t: nat, c: nat, pc': Pc)
    requires Core(s) && t in s.threads && s.threads[t].ClosingDone? && s.threads[t].conn == c
    requires pc' == TearingDown(c) || pc' == Stopped
    ensures c in s.m.heap && Core(To(s, t, Close(s.m, s.m.heap[c].done), pc'))
  {
    assert PcOk(s.m, s.threads[t]);
    CloseTo(s, t, s.m.heap[c].done, pc');
  }

  // ----- outages -----

  lemma Kill(s: Sys, t: nat, c: nat, gen: nat)
    requires Core(s) && t in s.threads && s.threads[t] == Watching(c, gen) && c in s.m.heap && Kills(s.m, c, gen)
    ensures Core(To(s, t, MarkDead(s.m, c, gen), Died(c)))
  {
    var k := s.m.heap[c].(phase := Reconnecting, deaths := s.m.heap[c].deaths + [gen], dials := 0);
    CoreAt(s, t);
    CoreConn(s, c);
    DoneFree(s, c);
    UptoNext(gen);
    assert MarkDead(s.m, c, gen) == Edit(s.m, c, k, s.m.nextSignal);
    hide Core, Upto, Edit, MarkDead;
    forall u | u in s.threads && u != t
      ensures !Owns(s.threads[u], c)
    {
      UpHasNoOwner(s, c, u);
    }
    DiedOk(s, t, c, k);
    EditTo(s, t, c, k, s.m.nextSignal, Died(c));
  }

  lemma UptoNext(n: nat)
    ensures Upto(n) + [n] == Upto(n + 1)
  {}

  lemma DiedOk(s: Sys, t: nat, c: nat, k: Conn)
    requires t in s.threads && s.threads[t].Watching? && Remote(s.m, c) && s.m.heap[c].done !in s.m.closed
    requires k.phase == Reconnecting && k.dials == 0 && k.done == s.m.heap[c].done && !HasCloser(s, k.done)
    ensures var m' := Edit(s.m, c, k, s.m.nextSignal);
      && PcOk(m', Died(c)) && ClosesFairly(s, t, m', Died(c)) && LeavesNothingOpen(s, t, m', Died(c))
      && OutageCarried(s, t, m', Died(c), c)
  {
    hide HasCloser;
  }

  lemma UpHasNoOwner(s: Sys, c: nat, u: nat)
    requires Core(s) && c in s.m.heap && s.m.heap[c].phase == Connected && u in s.threads
    ensures !Owns(s.threads[u], c)
  {
    CoreAt(s, u);
    hide Core;
  }

  /** Nobody is going to close the reconnectDone of a connection that is up. */
  lemma DoneFree(s: Sys, c: nat)
    requires Core(s) && c in s.m.heap && s.m.heap[c].phase == Connected
    ensures !HasCloser(s, s.m.heap[c].done)
  {
    forall u | u in s.threads
      ensures Closes(s.m, s.threads[u]) != Some(s.m.heap[c].done)
    {
      assert PcOk(s.m, s.threads[u]);
    }
  }

  /** The owner of an outage changes its connection; everybody else has nothing to do with it. */
  lemma OwnerEdit(s: Sys, t: nat, c: nat, k: Conn, n: nat, pc': Pc)
    requires Core(s) && t in s.threads && Owns(s.threads[t], c) && c in s.m.heap
    requires EditOk(s.m, c, k, n)
    requires k.deaths == Upto(k.generation + (if k.phase == Connected then 0 else 1))
    requires var m' := Edit(s.m, c, k, n);
      PcOk(m', pc') && ClosesFairly(s, t, m', pc') && LeavesNothingOpen(s, t, m', pc')
          && OutageCarried(s, t, m', pc', c)
    requires !pc'.Retrying? && !pc'.AwaitingDone? && !pc'.AwaitingGate?
    ensures Core(To(s, t, Edit(s.m, c, k, n), pc'))
  {
    hide Core;
    forall u | u in s.threads && u != t
      ensures !Owns(s.threads[u], c)
    {
      SoleOwner(s, t, c, u);
    }
    EditTo(s, t, c, k, n, pc');
  }

  lemma Fail(s: Sys, t: nat, c: nat, tear: bool)
    requires Core(s) && t in s.threads && s.threads[t] == Failing(c, tear)
    ensures c in s.m.heap && Core(To(s, t, SetFailed(s.m, c), ClosingDone(c, tear)))
  {
    hide Core;
    CoreAt(s, t);
    CoreConn(s, c);
    OwnerEdit(s, t, c, s.m.heap[c].(phase := Failed), s.m.nextSignal, ClosingDone(c, tear));
  }

  lemma Redial(s: Sys, t: nat, c: nat, a: nat, ok: bool)
    requires Core(s) && t in s.threads && s.threads[t] == Redialing(c, a)
    ensures c in s.m.heap && Core(To(s, t, CountDial(s.m, c), if ok then Reviving(c) else Looping(c, a + 1)))
  {
    hide Core;
    CoreAt(s, t);
    CoreConn(s, c);
    OwnerEdit(s, t, c, s.m.heap[c].(dials := s.m.heap[c].dials + 1), s.m.nextSignal,
              if ok then Reviving(c) else Looping(c, a + 1));
  }

  lemma ReviveConn(s: Sys, t: nat, c: nat)
    requires Core(s) && t in s.threads && s.threads[t] == Reviving(c)
    ensures c in s.m.heap && Core(To(s, t, Revive(s.m, c), ClosingOld(s.m.heap[c].done)))
  {
    hide Core;
    CoreAt(s, t);
    CoreConn(s, c);
    var k := s.m.heap[c].(phase := Connected, generation := s.m.heap[c].generation + 1, done := s.m.nextSignal);
    OwnerEdit(s, t, c, k, s.m.nextSignal + 1, ClosingOld(s.m.heap[c].done));
  }

  lemma RetryConn(s: Sys, t: nat, c: nat)
    requires Core(s) && t in s.threads && s.threads[t] == Retrying(c)
    ensures c in s.m.heap && Core(To(s, t, ResetForRetry(s.m, c), Looping(c, 0)))
  {
    hide Core;
    CoreAt(s, t);
    CoreConn(s, c);
    var k := s.m.heap[c].(phase := Reconnecting, done := s.m.nextSignal, dials := 0);
    OwnerEdit(s, t, c, k, s.m.nextSignal + 1, Looping(c, 0));
  }

  // ----- channels and references -----

  lemma CountingPc(s: Sys, c: nat, refs: int, pc': Pc)
    requires c in s.m.heap && (pc' == Inserting(c) || pc' == TearingDown(c) || pc' == Stopped)
    ensures PcOk(Edit(s.m, c, s.m.heap[c].(refs := refs), s.m.nextSignal), pc')
  {}

  lemma CountRefs(s: Sys, t: nat, c: nat, refs: int, pc': Pc)
    requires Core(s) && t in s.threads && c in s.m.heap
    requires s.threads[t] == Opening(c) || s.threads[t] == Decrementing(c)
    requires pc' == Inserting(c) || pc' == TearingDown(c) || pc' == Stopped
    ensures Core(To(s, t, Edit(s.m, c, s.m.heap[c].(refs := refs), s.m.nextSignal), pc'))
  {
    hide Core;
    CoreConn(s, c);
    hide OutageOk, Upto, PcOk;
    CountingPc(s, c, refs, pc');
    EditTo(s, t, c, s.m.heap[c].(refs := refs), s.m.nextSignal, pc');
  }

  lemma LocalOthers(s: Sys, t: nat)
    requires Core(s) && t !in s.threads
    ensures OthersUnaware(s, t, EnsureLocal(s.m))
    ensures MapsOk(EnsureLocal(s.m)) && DeathsOk(EnsureLocal(s.m))
  {
    EnsureLocalMaps(s.m);
    forall u | u in s.threads && u != t
      ensures Unaware(s.m, EnsureLocal(s.m), s.threads[u])
    {
      EnsureLocalUnaware(s.m, s.threads[u]);
    }
  }

  lemma LocalOutages(s: Sys, t: nat)
    requires Core(s) && t !in s.threads
    ensures forall c :: c in EnsureLocal(s.m).heap ==> OutageCarried(s, t, EnsureLocal(s.m), Opening(LOCAL), c)
    ensures LOCAL in EnsureLocal(s.m).heap
  {
    var m' := EnsureLocal(s.m);
    forall c | c in m'.heap
      ensures OutageCarried(s, t, m', Opening(LOCAL), c)
    {
      if c in s.m.heap { assert OutageOk(s, c); }
    }
  }

  lemma MakeLocal(s: Sys, t: nat)
    requires Core(s) && t !in s.threads
    ensures Core(To(s, t, EnsureLocal(s.m), Opening(LOCAL)))
  {
    LocalOthers(s, t);
    LocalOutages(s, t);
    CoreTo(s, t, EnsureLocal(s.m), Opening(LOCAL));
  }

  lemma ForgetTorn(s: Sys, t: nat, c: nat)
    requires Core(s) && t in s.threads && c in s.m.heap && s.threads[t] == TearingDown(c)
    ensures Core(To(s, t, Teardown(s.m, c), Stopped))
  {
    hide Core;
    CoreMaps(s);
    if c != LOCAL { ForgetMaps(s.m, c); }
    MapsTo(s, t, Teardown(s.m, c), Stopped);
  }

  lemma Forget(s: Sys, t: nat, c: nat)
    requires Core(s) && t in s.threads && Remote(s.m, c) && s.threads[t] == Dropping(s.m.heap[c].ident, c)
    ensures Core(To(s, t, Drop(s.m, s.m.heap[c].ident, c), Looking(s.m.heap[c].ident)))
  {
    hide Core;
    CoreMaps(s);
    ForgetMaps(s.m, c);
    MapsTo(s, t, Drop(s.m, s.m.heap[c].ident, c), Looking(s.m.heap[c].ident));
  }

  // ----- every step -----

  lemma CoreGo(s: Sys, t: nat, ok: bool, cfg: ReconnectConfig)
    requires Core(s) && t in s.threads && CanGo(s, s.threads[t], ok)
    ensures Core(Advance(s, t, ok, cfg))
  {
    hide Core, CanGo, AdvanceConnect, AdvanceOutage, AdvanceChannel;
    if InConnect(s.threads[t]) {
      CoreConnect(s, t, ok, cfg);
    } else if InOutage(s.threads[t]) {
      CoreOutage(s, t, ok);
    } else {
      CoreChannel(s, t, ok);
    }
  }

  lemma CoreConnect(s: Sys, t: nat, ok: bool, cfg: ReconnectConfig)
    requires Core(s) && t in s.threads && CanGo(s, s.threads[t], ok) && InConnect(s.threads[t])
    ensures Core(AdvanceConnect(s, t, ok, cfg))
  {
    hide Core, CanGo, PcOk;
    match s.threads[t]
    case Looking(i) => Look(s, t, i, ok, cfg);
    case Dropping(i, c) => DropIt(s, t, i, c);
    case DialFailed(i, g) => DialFails(s, t, i, g);
    case DialDone(i, g, k) => DialSucceeds(s, t, i, g, k);
    case OpeningGate(i, g, r) => OpenGate(s, t, i, g, r);
    case Returned(_, _) =>
    case _ => QuietConnect(s, t, ok, cfg);
  }

  lemma Look(s: Sys, t: nat, i: Ident, ok: bool, cfg: ReconnectConfig)
    requires Core(s) && t in s.threads && s.threads[t] == Looking(i) && CanGo(s, s.threads[t], ok)
    ensures Core(AdvanceConnect(s, t, ok, cfg))
  {
    hide Core;
    if i in s.m.connByIdent { LookFound(s, t, i); }
    else if i in s.m.pending { LookInFlight(s, t, i); }
    else { LookMustDial(s, t, i); }
  }

  lemma DropIt(s: Sys, t: nat, i: Ident, c: nat)
    requires Core(s) && t in s.threads && s.threads[t] == Dropping(i, c)
    ensures Core(To(s, t, Drop(s.m, i, c), Looking(i)))
  {
    CoreAt(s, t);
    hide Core, Drop;
    Forget(s, t, c);
  }

  lemma QuietConnect(s: Sys, t: nat, ok: bool, cfg: ReconnectConfig)
    requires Core(s) && t in s.threads && CanGo(s, s.threads[t], ok)
    requires
      var pc := s.threads[t];
      pc.AwaitingDone? || pc.Rechecking? || pc.AwaitingGate? || pc.PastGate? || pc.Dialing?
    ensures Core(AdvanceConnect(s, t, ok, cfg))
  {
    hide Core, CanGo;
    CoreAt(s, t);
    match s.threads[t]
    case AwaitingDone(i, c, _) => Quiet(s, t, if ok then Rechecking(i, c) else Returned(i, None));
    case Rechecking(i, c) => Quiet(s, t, if s.m.heap[c].phase
        == Connected then Returned(i, Some(c)) else Dropping(i, c));
    case AwaitingGate(i, _) => Quiet(s, t, PastGate(i));
    case PastGate(i) => PassGate(s, t, i);
    case Dialing(i, g) => Quiet(s, t, if ok then DialDone(i, g, cfg) else DialFailed(i, g));
  }

  lemma PassGate(s: Sys, t: nat, i: Ident)
    requires Core(s) && t in s.threads && s.threads[t] == PastGate(i)
    ensures Core(To(s, t, s.m, Returned(i, if i in s.m.connByIdent then Some(s.m.connByIdent[i]) else None)))
  {
    hide Core;
    CoreMaps(s);
    Quiet(s, t, Returned(i, if i in s.m.connByIdent then Some(s.m.connByIdent[i]) else None));
  }

  lemma CoreOutage(s: Sys, t: nat, ok: bool)
    requires Core(s) && t in s.threads && CanGo(s, s.threads[t], ok) && InOutage(s.threads[t])
    ensures Core(AdvanceOutage(s, t, ok))
  {
    hide Core, PcOk;
    match s.threads[t]
    case Watching(c, gen) => Watch(s, t, c, gen, ok);
    case Redialing(c, a) => Redial(s, t, c, a, ok);
    case Reviving(c) => ReviveConn(s, t, c);
    case ClosingOld(d) => CloseOldDone(s, t, d);
    case Failing(c, tear) => Fail(s, t, c, tear);
    case ClosingDone(c, tear) => CloseDone(s, t, c, if tear then TearingDown(c) else Stopped);
    case Retrying(c) => RetryConn(s, t, c);
    case _ => QuietOutage(s, t, ok);
  }

  lemma Watch(s: Sys, t: nat, c: nat, gen: nat, ok: bool)
    requires Core(s) && t in s.threads && s.threads[t] == Watching(c, gen) && c in s.m.heap
    ensures Core(AdvanceOutage(s, t, ok))
  {
    hide Core;
    if ok && Kills(s.m, c, gen) { Kill(s, t, c, gen); } else { Quiet(s, t, Stopped); }
  }

  lemma QuietOutage(s: Sys, t: nat, ok: bool)
    requires Core(s) && t in s.threads && CanGo(s, s.threads[t], ok)
    requires s.threads[t].Died? || s.threads[t].Looping? || s.threads[t].Sleeping?
    ensures Core(AdvanceOutage(s, t, ok))
  {
    hide Core, CanGo;
    CoreAt(s, t);
    match s.threads[t]
    case Died(c) => Quiet(s, t, if s.m.heap[c].cfg.enabled then Looping(c, 0) else Failing(c, false));
    case Looping(c, a) => LoopOn(s, t, c, a);
    case Sleeping(c, a) => Quiet(s, t, if ok then Redialing(c, a) else Failing(c, false));
  }

  lemma LoopOn(s: Sys, t: nat, c: nat, a: nat)
    requires Core(s) && t in s.threads && s.threads[t] == Looping(c, a) && c in s.m.heap
    ensures Core(To(s, t, s.m,
                    if a >= s.m.heap[c].cfg.maxRetries then Failing(c, false)
                    else if !HasChannels(s.m, c) then Failing(c, true)
                    else Sleeping(c, a)))
  {
    hide Core, HasChannels;
    CoreAt(s, t);
    Quiet(s, t, if a >= s.m.heap[c].cfg.maxRetries then Failing(c, false)
                else if !HasChannels(s.m, c) then Failing(c, true)
                else Sleeping(c, a));
  }

  lemma CoreChannel(s: Sys, t: nat, ok: bool)
    requires Core(s) && t in s.threads && CanGo(s, s.threads[t], ok) && !InConnect(s.threads[t])
             && !InOutage(s.threads[t])
    ensures Core(AdvanceChannel(s, t, ok))
  {
    hide Core;
    match s.threads[t]
    case Opening(c) =>
      if ok { CountRefs(s, t, c, s.m.heap[c].refs + 1, Inserting(c)); } else { Quiet(s, t, Stopped); }
    case Inserting(c) => InsertTo(s, t, c);
    case Decrementing(c) =>
      CountRefs(s, t, c, s.m.heap[c].refs - 1, if LastRef(s.m, c) then TearingDown(c) else Stopped);
    case TearingDown(c) => ForgetTorn(s, t, c);
    case Stopped =>
  }

  lemma InsertTo(s: Sys, t: nat, c: nat)
    requires Core(s) && t in s.threads && s.threads[t] == Inserting(c)
    ensures Core(To(s, t, InsertChannel(s.m, c), Stopped))
  {
    hide Core;
    CoreAt(s, t);
    CoreMaps(s);
    MapsTo(s, t, InsertChannel(s.m, c), Stopped);
  }

  lemma RemoveMaps(m: Shared, ch: nat)
    requires MapsOk(m) && ch in m.channels
    ensures MapsOk(RemoveChannel(m, ch)) && m.channels[ch] in m.heap
  {}

  lemma RemoveTo(s: Sys, t: nat, ch: nat)
    requires Core(s) && t !in s.threads && ch in s.m.channels
    ensures var c := s.m.channels[ch];
      Core(To(s, t, RemoveChannel(s.m, ch), if c in s.m.connections then Decrementing(c) else Stopped))
  {
    hide Core;
    CoreMaps(s);
    RemoveMaps(s.m, ch);
    hide MapsOk;
    var c := s.m.channels[ch];
    MapsTo(s, t, RemoveChannel(s.m, ch), if c in s.m.connections then Decrementing(c) else Stopped);
  }

  lemma CoreStep(s: Sys, step: Step)
    requires Core(s) && Enabled(s, step) && Disciplined(s, step)
    ensures Core(Next(s, step))
  {
    hide Core;
    match step
    case Connect(t, i) => Quiet(s, t, Looking(i));
    case Observe(t, c) => Quiet(s, t, Watching(c, s.m.heap[c].generation));
    case Retry(t, c) => RetryStarts(s, t, c);
    case Open(t, c) => Quiet(s, t, Opening(c));
    case OpenLocal(t) => MakeLocal(s, t);
    case CloseChannel(t, ch) =>
      RemoveTo(s, t, ch);
    case Cancel => CancelKeeps(s);
    case Go(t, ok, cfg) => CoreGo(s, t, ok, cfg);
  }

  lemma RetryStarts(s: Sys, t: nat, c: nat)
    requires Core(s) && t !in s.threads && c in s.m.heap && s.m.heap[c].phase == Failed && Idle(s, c)
    ensures Core(To(s, t, s.m, Retrying(c)))
  {
    assert OutageOk(s, c);
    Quiet(s, t, Retrying(c));
  }

  lemma CancelKeeps(s: Sys)
    requires Core(s)
    ensures Core(s.(cancelled := true))
  {
    var s' := s.(cancelled := true);
    forall c | c in s.m.heap
      ensures OutageOk(s', c)
    {
      assert OutageOk(s, c);
      if HasOwner(s, c) {
        var w :| w in s.threads && Owns(s.threads[w], c);
        assert w in s'.threads && Owns(s'.threads[w], c);
      }
    }
    forall u | u in s.threads
      ensures WaitOk(s', s.threads[u])
    {
      assert WaitOk(s, s.threads[u]);
      assert forall d :: HasCloser(s, d) ==> HasCloser(s', d);
    }
    forall i | i in s.m.pending
      ensures HasDialer(s', i)
    {
      assert HasDialer(s, i);
    }
  }
}
