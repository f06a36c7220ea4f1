/**
 Each critical section keeps the maps in order, and is not noticed by the goroutines it does not
 concern.
 */
module SessionSections {
  import opened Wrappers
  import opened SessionState
  import opened SessionSteps
  import opened SessionInvariants
  import opened SessionPreserve

  // ----- sections that touch one Connection -----

  /** Connection c becomes k; signals below n are then allocated. */
  function Edit(m: Shared, c: nat, k: Conn, n: nat): Shared {
    m.(heap := m.heap[c := k], nextSignal := n)
  }

  ghost predicate EditOk(m: Shared, c: nat, k: Conn, n: nat) {
    && c in m.heap && k.ident == m.heap[c].ident && k.cfg == m.heap[c].cfg && k.generation >= m.heap[c].generation
    && m.nextSignal <= n
    && (k.done == m.heap[c].done || m.nextSignal <= k.done < n)
    && (c == LOCAL ==> k.phase == Connected)
  }

  lemma EditMaps(m: Shared, c: nat, k: Conn, n: nat)
    requires MapsOk(m) && EditOk(m, c, k, n)
    ensures MapsOk(Edit(m, c, k, n))
  {
    var m' := Edit(m, c, k, n);
    forall a, b | a in m'.heap && b in m'.heap && a != b
      ensures m'.heap[a].done != m'.heap[b].done
    {
      assert m.heap[a].done != m.heap[b].done;
    }
  }

  lemma EditUnaware(m: Shared, c: nat, k: Conn, n: nat, pc: Pc)
    requires MapsOk(m) && EditOk(m, c, k, n) && PcOk(m, pc)
    requires Owns(pc, c) ==> k.phase == m.heap[c].phase && k.done == m.heap[c].done && k.dials == m.heap[c].dials
    ensures Unaware(m, Edit(m, c, k, n), pc)
  {
    var m' := Edit(m, c, k, n);
    assert forall d :: Fresh(m, d) ==> Fresh(m', d);
  }

  // ----- sections that touch the manager's maps -----

  /** A change that keeps every connection, the closed signals and this goroutine's own gate goes unnoticed. */
  lemma GrowUnaware(m: Shared, m': Shared, pc: Pc)
    requires PcOk(m, pc) && m'.closed == m.closed
    requires forall c :: c in m.heap ==> c in m'.heap && m'.heap[c] == m.heap[c]
    requires forall d :: Fresh(m, d) ==> Fresh(m', d)
    requires forall i :: i in m.pending && Closes(m, pc) == Some(m.pending[i]) ==> i in m'.pending && m'.pending[i] == m.pending[i]
    ensures Unaware(m, m', pc)
  {
    hide Fresh;
    GrowCloses(m, m', pc);
    hide Closes;
    if pc.Dialing? || pc.DialFailed? || pc.DialDone? {
      assert Closes(m, pc) == Some(pc.gate) by { DialerCloses(m, pc); }
    }
  }

  lemma DialerCloses(m: Shared, pc: Pc)
    requires pc.Dialing? || pc.DialFailed? || pc.DialDone?
    ensures Closes(m, pc) == Some(pc.gate)
  {}

  lemma GrowCloses(m: Shared, m': Shared, pc: Pc)
    requires PcOk(m, pc)
    requires forall c :: c in m.heap ==> c in m'.heap && m'.heap[c] == m.heap[c]
    ensures Closes(m', pc) == Closes(m, pc)
  {
    hide Fresh;
  }

  lemma ReserveMaps(m: Shared, i: Ident)
    requires MapsOk(m) && i !in m.connByIdent && i !in m.pending
    ensures MapsOk(Lookup(m, i).0)
  {}

  lemma ReserveUnaware(m: Shared, i: Ident, pc: Pc)
    requires MapsOk(m) && i !in m.connByIdent && i !in m.pending && PcOk(m, pc)
    ensures Unaware(m, Lookup(m, i).0, pc)
  {}

  lemma AbandonDialUnaware(m: Shared, i: Ident, pc: Pc)
    requires MapsOk(m) && PcOk(m, pc) && i in m.pending && Closes(m, pc) != Some(m.pending[i])
    ensures Unaware(m, AbandonDial(m, i), pc)
  {
    assert forall d :: Fresh(m, d) ==> Fresh(AbandonDial(m, i), d);
    GrowUnaware(m, AbandonDial(m, i), pc);
  }

  lemma PublishMaps(m: Shared, i: Ident, cfg: ReconnectConfig)
    requires MapsOk(m)
    ensures MapsOk(Publish(m, i, cfg))
  {
    var m' := Publish(m, i, cfg);
    assert m.nextId !in m.heap;
    forall a, b | a in m'.heap && b in m'.heap && a != b
      ensures m'.heap[a].done != m'.heap[b].done
    {
      if a in m.heap && b in m.heap { assert m.heap[a].done != m.heap[b].done; }
    }
  }

  lemma PublishUnaware(m: Shared, i: Ident, cfg: ReconnectConfig, pc: Pc)
    requires MapsOk(m) && PcOk(m, pc) && i in m.pending && Closes(m, pc) != Some(m.pending[i])
    ensures Unaware(m, Publish(m, i, cfg), pc)
  {
    var m' := Publish(m, i, cfg);
    assert m.nextId !in m.heap;
    assert forall c :: c in m.heap ==> c in m'.heap && m'.heap[c] == m.heap[c];
    assert forall d :: Fresh(m, d) ==> Fresh(m', d);
    GrowUnaware(m, m', pc);
  }

  lemma EnsureLocalMaps(m: Shared)
    requires MapsOk(m)
    ensures MapsOk(EnsureLocal(m))
  {
    var m' := EnsureLocal(m);
    forall a, b | a in m'.heap && b in m'.heap && a != b
      ensures m'.heap[a].done != m'.heap[b].done
    {
      if a in m.heap && b in m.heap { assert m.heap[a].done != m.heap[b].done; }
    }
  }

  lemma EnsureLocalUnaware(m: Shared, pc: Pc)
    requires MapsOk(m) && PcOk(m, pc)
    ensures Unaware(m, EnsureLocal(m), pc)
  {
    var m' := EnsureLocal(m);
    assert forall c :: c in m.heap ==> c in m'.heap && m'.heap[c] == m.heap[c];
    assert forall d :: Fresh(m, d) ==> Fresh(m', d);
    GrowUnaware(m, m', pc);
  }

  lemma CloseUnaware(m: Shared, d: nat, pc: Pc)
    requires MapsOk(m) && PcOk(m, pc) && Closes(m, pc) != Some(d)
    ensures Unaware(m, Close(m, d), pc)
  {}

  /** Dropping, tearing down and the channel table are invisible to every program counter. */
  lemma MapsUnaware(m: Shared, m': Shared, pc: Pc)
    requires PcOk(m, pc)
    requires m' == m.(connections := m'.connections, connByIdent := m'.connByIdent, channels := m'.channels,
             nextId := m'.nextId)
    ensures Unaware(m, m', pc)
  {
    assert forall d :: Fresh(m, d) ==> Fresh(m', d);
    GrowUnaware(m, m', pc);
  }

  lemma ForgetMaps(m: Shared, c: nat)
    requires MapsOk(m) && Remote(m, c)
    ensures MapsOk(Drop(m, m.heap[c].ident, c))
    ensures MapsOk(Teardown(m, c))
  {}
}
