/**
 One lemma that carries the invariant over a step, whatever the step: a goroutine moves from its
 program counter to another and changes the shared state so that no other goroutine notices.
 */
module SessionPreserve {
  import opened Wrappers
  import opened SessionState
  import opened SessionSteps
  import opened SessionInvariants

  /** Where goroutine t is; one that has not started counts as stopped. */
  function At(s: Sys, t: nat): Pc {
    if t in s.threads then s.threads[t] else Stopped
  }

  /** A goroutine at `pc` does not notice the change from m to m'. */
  ghost predicate Unaware(m: Shared, m': Shared, pc: Pc) {
    PcOk(m', pc) && Closes(m', pc) == Closes(m, pc)
  }

  ghost predicate OthersUnaware(s: Sys, t: nat, m': Shared) {
    forall u :: u in s.threads && u != t ==> Unaware(s.m, m', s.threads[u])
  }

  /** Goroutine t takes over no signal that another one may be about to close. */
  ghost predicate ClosesFairly(s: Sys, t: nat, m': Shared, pc': Pc) {
    && (Closes(m', pc') == None || Closes(m', pc') == Closes(s.m, At(s, t))
         || Closes(m', pc').value >= s.m.nextSignal || !HasCloser(s, Closes(m', pc').value))
    && (pc'.Retrying? ==> Idle(s, pc'.conn))
  }

  /** Goroutine t drops no signal without closing it. */
  ghost predicate LeavesNothingOpen(s: Sys, t: nat, m': Shared, pc': Pc) {
    && s.m.closed <= m'.closed
    && forall d :: Closes(s.m, At(s, t)) == Some(d) ==> Closes(m', pc') == Some(d) || d in m'.closed
  }

  /** Either connection c looks as before to waiters, or goroutine t settles its new phase itself. */
  ghost predicate OutageCarried(s: Sys, t: nat, m': Shared, pc': Pc, c: nat)
    requires c in m'.heap
  {
    var d := m'.heap[c].done;
    || (&& c in s.m.heap && m'.heap[c].phase == s.m.heap[c].phase && d == s.m.heap[c].done
        && (d in m'.closed ==> d in s.m.closed)
        && (Owns(At(s, t), c) ==> Owns(pc', c)))
    || (m'.heap[c].phase == Connected && d !in m'.closed)
    || (m'.heap[c].phase == Reconnecting && d !in m'.closed && Owns(pc', c))
    || (m'.heap[c].phase == Failed && (d in m'.closed || Owns(pc', c)))
  }

  /** What the new program counter may wait for: a signal already closed, or one another goroutine closes. */
  ghost predicate WaitsSafely(s: Sys, t: nat, pc': Pc) {
    match pc'
    case AwaitingDone(_, _, d) => Closes(s.m, At(s, t)) == None && (d in s.m.closed || HasCloser(s, d))
    case AwaitingGate(_, g) => Closes(s.m, At(s, t)) == None && (g in s.m.closed || HasCloser(s, g))
    case _ => true
  }

  ghost predicate DialCarried(s: Sys, t: nat, m': Shared, pc': Pc) {
    forall i :: i in m'.pending ==>
      Dials(pc', i) || (i in s.m.pending && !Dials(At(s, t), i))
  }

  /** The part of the invariant that is not about reference counts. */
  ghost predicate Core(s: Sys) {
    && MapsOk(s.m)
    && PcsOk(s)
    && NoRivals(s)
    && DeathsOk(s.m)
    && OutagesOk(s)
    && WaitsOk(s)
    && PendingOk(s)
    && !s.m.panicked
  }

  lemma ClosesAllocated(m: Shared, pc: Pc)
    requires MapsOk(m) && PcOk(m, pc)
    ensures Closes(m, pc).Some? ==> Closes(m, pc).value < m.nextSignal
  {}

  lemma NoRivalsTo(s: Sys, t: nat, m': Shared, pc': Pc)
    requires MapsOk(s.m) && PcsOk(s) && NoRivals(s)
    requires OthersUnaware(s, t, m') && ClosesFairly(s, t, m', pc')
    ensures NoRivals(To(s, t, m', pc'))
  {
    forall u | u in s.threads && u != t
      ensures !Rivals(m', pc', s.threads[u]) && !Rivals(m', s.threads[u], pc')
    {
      NoRivalOf(s, t, m', pc', u);
    }
    forall u, u' | u in s.threads && u' in s.threads && u != u' && u != t && u' != t
      ensures !Rivals(m', s.threads[u], s.threads[u'])
    {
      assert Unaware(s.m, m', s.threads[u]) && Unaware(s.m, m', s.threads[u']);
      assert !Rivals(s.m, s.threads[u], s.threads[u']);
      hide NoRivals, PcsOk, PcOk, MapsOk;
    }
    hide Rivals, PcsOk, MapsOk;
  }

  lemma NoRivalOf(s: Sys, t: nat, m': Shared, pc': Pc, u: nat)
    requires MapsOk(s.m) && PcsOk(s) && NoRivals(s) && u in s.threads && u != t
    requires OthersUnaware(s, t, m') && ClosesFairly(s, t, m', pc')
    ensures !Rivals(m', pc', s.threads[u]) && !Rivals(m', s.threads[u], pc')
  {
    assert Unaware(s.m, m', s.threads[u]);
    assert PcOk(s.m, s.threads[u]);
    ClosesAllocated(s.m, s.threads[u]);
    if t in s.threads {
      assert !Rivals(s.m, s.threads[t], s.threads[u]);
    }
    hide NoRivals, PcsOk, PcOk, MapsOk, Closes;
  }

  lemma OwnerKept(s: Sys, t: nat, m': Shared, pc': Pc, c: nat)
    requires HasOwner(s, c)
    requires Owns(At(s, t), c) ==> Owns(pc', c)
    ensures HasOwner(To(s, t, m', pc'), c)
  {
    var w :| w in s.threads && Owns(s.threads[w], c);
    assert To(s, t, m', pc').threads[w] == if w == t then pc' else s.threads[w];
  }

  lemma OutagesTo(s: Sys, t: nat, m': Shared, pc': Pc)
    requires OutagesOk(s) && s.m.closed <= m'.closed
    requires forall c :: c in m'.heap ==> OutageCarried(s, t, m', pc', c)
    ensures OutagesOk(To(s, t, m', pc'))
  {
    var s' := To(s, t, m', pc');
    forall c | c in m'.heap
      ensures OutageOk(s', c)
    {
      assert OutageCarried(s, t, m', pc', c);
      if Owns(pc', c) {
        assert t in s'.threads && s'.threads[t] == pc';
        assert HasOwner(s', c);
      } else if c in s.m.heap && HasOwner(s, c) && !Owns(At(s, t), c) {
        assert OutageOk(s, c);
        OwnerKept(s, t, m', pc', c);
      } else if c in s.m.heap {
        assert OutageOk(s, c);
      }
    }
  }

  lemma CloserKept(s: Sys, t: nat, m': Shared, pc': Pc, d: nat)
    requires HasCloser(s, d)
    requires OthersUnaware(s, t, m')
    requires Closes(s.m, At(s, t)) == Some(d) ==> Closes(m', pc') == Some(d)
    ensures HasCloser(To(s, t, m', pc'), d)
  {
    var w :| w in s.threads && Closes(s.m, s.threads[w]) == Some(d);
    assert w != t ==> Unaware(s.m, m', s.threads[w]);
    assert To(s, t, m', pc').threads[w] == if w == t then pc' else s.threads[w];
  }

  lemma WaitsTo(s: Sys, t: nat, m': Shared, pc': Pc)
    requires WaitsOk(s)
    requires OthersUnaware(s, t, m') && LeavesNothingOpen(s, t, m', pc') && WaitsSafely(s, t, pc')
    ensures WaitsOk(To(s, t, m', pc'))
  {
    var s' := To(s, t, m', pc');
    forall u | u in s'.threads
      ensures WaitOk(s', s'.threads[u])
    {
      if u != t {
        assert WaitOk(s, s.threads[u]);
      }
      match s'.threads[u]
      case AwaitingDone(_, _, d) =>
        if d !in m'.closed { CloserKept(s, t, m', pc', d); }
      case AwaitingGate(_, g) =>
        if g !in m'.closed { CloserKept(s, t, m', pc', g); }
      case _ =>
    }
  }

  lemma PendingTo(s: Sys, t: nat, m': Shared, pc': Pc)
    requires PendingOk(s) && DialCarried(s, t, m', pc')
    ensures PendingOk(To(s, t, m', pc'))
  {
    var s' := To(s, t, m', pc');
    forall i | i in m'.pending
      ensures HasDialer(s', i)
    {
      if Dials(pc', i) {
        assert t in s'.threads && s'.threads[t] == pc';
      } else {
        var w :| w in s.threads && Dials(s.threads[w], i);
        assert s'.threads[w] == s.threads[w];
      }
    }
  }

  ghost predicate Carried(s: Sys, t: nat, m': Shared, pc': Pc) {
    && MapsOk(m') && DeathsOk(m') && !m'.panicked
    && PcOk(m', pc')
    && OthersUnaware(s, t, m')
    && ClosesFairly(s, t, m', pc')
    && LeavesNothingOpen(s, t, m', pc')
    && (forall c :: c in m'.heap ==> OutageCarried(s, t, m', pc', c))
    && WaitsSafely(s, t, pc')
    && DialCarried(s, t, m', pc')
  }

  lemma CoreTo(s: Sys, t: nat, m': Shared, pc': Pc)
    requires Core(s) && Carried(s, t, m', pc')
    ensures Core(To(s, t, m', pc'))
  {
    var s' := To(s, t, m', pc');
    NoRivalsTo(s, t, m', pc');
    OutagesTo(s, t, m', pc');
    WaitsTo(s, t, m', pc');
    PendingTo(s, t, m', pc');
    forall u | u in s'.threads
      ensures PcOk(m', s'.threads[u])
    {
      assert u != t ==> Unaware(s.m, m', s.threads[u]);
    }
  }
}
