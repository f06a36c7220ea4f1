/**
 What the two maps of the manager do and do not guarantee: a connection that has left them never
 comes back, but the index entry of a registered connection can be lost to a caller that still
 holds an older one.
 */
module SessionIndex {
  import opened SessionState
  import opened SessionSteps
  import opened SessionInvariants
  import opened SessionPreserve
  import opened SessionSafety
  import opened SessionRuns
  import opened SessionTheorems

  // ----- gone stays gone -----

  ghost predicate Gone(m: Shared, c: nat) {
    c in m.heap && c != LOCAL && c !in m.connections
  }

  /** Teardown takes a connection out of both maps; the local one stays. */
  lemma TeardownForgets(s: Sys, t: nat, c: nat)
    requires t in s.threads && s.threads[t] == TearingDown(c) && c in s.m.heap
    ensures var m := AdvanceChannel(s, t, true).m;
      if c == LOCAL then m == s.m else Gone(m, c) && s.m.heap[c].ident !in m.connByIdent
  {}

  lemma GoneConnect(s: Sys, t: nat, ok: bool, cfg: ReconnectConfig, c: nat)
    requires Gone(s.m, c) && s.m.nextId !in s.m.heap && t in s.threads && CanGo(s, s.threads[t], ok)
             && InConnect(s.threads[t])
    ensures Gone(AdvanceConnect(s, t, ok, cfg).m, c)
  {}

  lemma GoneOutage(s: Sys, t: nat, ok: bool, c: nat)
    requires Gone(s.m, c) && t in s.threads && CanGo(s, s.threads[t], ok) && InOutage(s.threads[t])
    ensures Gone(AdvanceOutage(s, t, ok).m, c)
  {}

  lemma GoneChannel(s: Sys, t: nat, ok: bool, c: nat)
    requires Gone(s.m, c) && t in s.threads && CanGo(s, s.threads[t], ok)
    requires !InConnect(s.threads[t]) && !InOutage(s.threads[t])
    ensures Gone(AdvanceChannel(s, t, ok).m, c)
  {}

  lemma GoneStep(s: Sys, step: Step, c: nat)
    requires Inv(s) && Enabled(s, step) && Gone(s.m, c)
    ensures Gone(Next(s, step).m, c)
  {
    InvMaps(s);
    hide Inv;
    match step
    case Go(t, ok, cfg) =>
      hide AdvanceConnect, AdvanceOutage, AdvanceChannel, CanGo, Gone;
      if InConnect(s.threads[t]) {
        GoneConnect(s, t, ok, cfg, c);
      } else if InOutage(s.threads[t]) {
        GoneOutage(s, t, ok, c);
      } else {
        GoneChannel(s, t, ok, c);
      }
    case _ =>
  }

  /** A connection that was dropped or torn down is never registered or handed out again, in any run. */
  lemma {:induction false} GoneStaysGone(s: Sys, steps: seq<Step>, c: nat)
    requires Inv(s) && CanRun(s, steps) && Gone(s.m, c)
    ensures var s' := End(s, steps);
      Gone(s'.m, c) && forall i :: i in s'.m.connByIdent ==> s'.m.connByIdent[i] != c
    decreases |steps|
  {
    if steps == [] {
      CoreMaps(s);
    } else {
      GoneStep(s, steps[0], c);
      InvStep(s, steps[0]);
      GoneStaysGone(Next(s, steps[0]), steps[1..], c);
    }
  }

  // ----- losing the index entry -----

  /** The goroutine is about to delete the index entry of an identity on behalf of another connection. */
  predicate DeletesOther(m: Shared, pc: Pc, i: Ident, c: nat) {
    || (pc.Dropping? && pc.ident == i && pc.conn != c)
    || (pc.TearingDown? && pc.conn != c && pc.conn != LOCAL && pc.conn in m.heap && m.heap[pc.conn].ident == i)
  }

  predicate Orphaned(m: Shared, i: Ident, c: nat) {
    c in m.connections && !(i in m.connByIdent && m.connByIdent[i] == c)
  }

  lemma OrphanConnect(s: Sys, t: nat, ok: bool, cfg: ReconnectConfig, i: Ident, c: nat)
    requires t in s.threads && CanGo(s, s.threads[t], ok) && InConnect(s.threads[t])
    requires i in s.m.connByIdent && s.m.connByIdent[i] == c && c in s.m.connections
    requires s.threads[t].DialDone? ==> s.threads[t].ident != i
    ensures Orphaned(AdvanceConnect(s, t, ok, cfg).m, i, c) <==> DeletesOther(s.m, s.threads[t], i, c)
  {}

  lemma OrphanOutage(s: Sys, t: nat, ok: bool, i: Ident, c: nat)
    requires t in s.threads && CanGo(s, s.threads[t], ok) && InOutage(s.threads[t])
    requires i in s.m.connByIdent && s.m.connByIdent[i] == c
    ensures !Orphaned(AdvanceOutage(s, t, ok).m, i, c) && !DeletesOther(s.m, s.threads[t], i, c)
  {}

  lemma OrphanChannel(s: Sys, t: nat, ok: bool, i: Ident, c: nat)
    requires t in s.threads && CanGo(s, s.threads[t], ok) && !InConnect(s.threads[t]) && !InOutage(s.threads[t])
    requires i in s.m.connByIdent && s.m.connByIdent[i] == c && c in s.m.connections
    ensures Orphaned(AdvanceChannel(s, t, ok).m, i, c) <==> DeletesOther(s.m, s.threads[t], i, c)
  {}

  /**
   A step takes the index entry of a connection that stays registered exactly when it drops or tears
   down another connection of the same identity.
   */
  lemma IndexLostExactly(s: Sys, step: Step, i: Ident)
    requires Inv(s) && Enabled(s, step) && i in s.m.connByIdent && i != LOCAL_IDENT
    ensures Orphaned(Next(s, step).m, i, s.m.connByIdent[i]) <==>
      step.Go? && DeletesOther(s.m, s.threads[step.t], i, s.m.connByIdent[i])
  {
    IndexedFacts(s, i);
    var c := s.m.connByIdent[i];
    if step.Go? {
      var t := step.t;
      DialsPending(s, t);
      hide Inv, AdvanceConnect, AdvanceOutage, AdvanceChannel, CanGo, Orphaned, DeletesOther;
      if InConnect(s.threads[t]) {
        OrphanConnect(s, t, step.ok, step.cfg, i, c);
      } else if InOutage(s.threads[t]) {
        OrphanOutage(s, t, step.ok, i, c);
      } else {
        OrphanChannel(s, t, step.ok, i, c);
      }
    } else {
      hide Inv;
      OrphanOther(s, step, i, c);
    }
  }

  lemma OrphanOther(s: Sys, step: Step, i: Ident, c: nat)
    requires Enabled(s, step) && !step.Go? && i in s.m.connByIdent && i != LOCAL_IDENT && s.m.connByIdent[i] == c
    ensures !Orphaned(Next(s, step).m, i, c)
  {
    hide CanGo;
  }

  lemma IndexedFacts(s: Sys, i: Ident)
    requires Inv(s) && i in s.m.connByIdent && i != LOCAL_IDENT
    ensures s.m.connByIdent[i] in s.m.connections && s.m.connByIdent[i] in s.m.heap && i !in s.m.pending
    ensures s.m.nextId !in s.m.heap && 0 < s.m.nextId
  {
    CoreMaps(s);
    hide Inv;
  }

  lemma DialsPending(s: Sys, t: nat)
    requires Inv(s) && t in s.threads
    ensures s.threads[t].DialDone? ==> s.threads[t].ident in s.m.pending
  {
    CoreAt(s, t);
    hide Inv;
  }

  /**
   Two calls of ConnectOrReuse that both find the same failed connection: the second deletion takes
   the entry of the connection the first call has just dialled, so a later call dials again although
   one is registered.
   */
  lemma TwoCallersLoseTheIndex(s: Sys, t: nat, u: nat, i: Ident) returns (steps: seq<Step>)
    requires Inv(s) && t in s.threads && u in s.threads && t != u
    requires s.threads[t] == Looking(i) && s.threads[u] == Looking(i)
    requires i in s.m.connByIdent && i != LOCAL_IDENT
    requires s.m.connByIdent[i] in s.m.heap && s.m.heap[s.m.connByIdent[i]].phase == Failed
    ensures CanRun(s, steps) && Undialled(End(s, steps).m, i, s.m.nextId)
  {
    IndexedFacts(s, i);
    hide Inv, CanRun, Undialled;
    steps := BothLook(s, t, u, i, s.m.connByIdent[i]);
  }

  lemma BothLook(s: Sys, t: nat, u: nat, i: Ident, c: nat) returns (steps: seq<Step>)
    requires t in s.threads && u in s.threads && t != u
    requires s.threads[t] == Looking(i) && s.threads[u] == Looking(i)
    requires i in s.m.connByIdent && s.m.connByIdent[i] == c && c in s.m.heap && s.m.heap[c].phase == Failed
    requires s.m.nextId !in s.m.heap && i !in s.m.pending
    ensures CanRun(s, steps) && Undialled(End(s, steps).m, i, s.m.nextId)
  {
    hide CanRun, Undialled;
    var goT, goU := Go(t, true, ReconnectConfig(true, 0)), Go(u, true, ReconnectConfig(true, 0));
    var s1 := Next(s, goT);
    var s2 := Next(s1, goU);
    assert s2.threads[t] == Dropping(i, c) && s2.threads[u] == Dropping(i, c) && s2.m == s.m;
    var rest := DialBetweenDrops(s2, t, u, i, c);
    Prepend(s1, goU, rest);
    Prepend(s, goT, [goU] + rest);
    steps := [goT] + ([goU] + rest);
  }

  /** A connected connection is registered for the identity, and the next caller will dial all the same. */
  predicate Undialled(m: Shared, i: Ident, c: nat) {
    c in m.connections && c in m.heap && m.heap[c].ident == i && m.heap[c].phase == Connected
    && i !in m.connByIdent && i !in m.pending
  }

  lemma DialBetweenDrops(s: Sys, t: nat, u: nat, i: Ident, c: nat) returns (steps: seq<Step>)
    requires t in s.threads && u in s.threads && t != u
    requires s.threads[t] == Dropping(i, c) && s.threads[u] == Dropping(i, c)
    requires c in s.m.heap && s.m.nextId !in s.m.heap && i !in s.m.pending
    ensures CanRun(s, steps) && Undialled(End(s, steps).m, i, s.m.nextId)
  {
    var goT, goU := Go(t, true, ReconnectConfig(true, 0)), Go(u, true, ReconnectConfig(true, 0));
    var s1 := Next(s, goT);
    var s2 := Next(s1, goT);
    assert s2.threads[t] == Dialing(i, s.m.nextSignal) && s2.threads[u] == Dropping(i, c);
    assert s2.m.heap == s.m.heap && s2.m.nextId == s.m.nextId;
    var rest := DialThenDrop(s2, t, u, i, c, s.m.nextSignal);
    Prepend(s1, goT, rest);
    Prepend(s, goT, [goT] + rest);
    steps := [goT] + ([goT] + rest);
  }

  lemma DialThenDrop(s: Sys, t: nat, u: nat, i: Ident, c: nat, gate: nat) returns (steps: seq<Step>)
    requires t in s.threads && u in s.threads && t != u
    requires s.threads[t] == Dialing(i, gate) && s.threads[u] == Dropping(i, c)
    requires c in s.m.heap && s.m.nextId !in s.m.heap
    ensures CanRun(s, steps) && Undialled(End(s, steps).m, i, s.m.nextId)
  {
    var goT, goU := Go(t, true, ReconnectConfig(true, 0)), Go(u, true, ReconnectConfig(true, 0));
    var s1 := Next(s, goT);
    var s2 := Next(s1, goT);
    assert s2.m == Publish(s.m, i, ReconnectConfig(true, 0)) && s2.threads[u] == Dropping(i, c);
    var s3 := Next(s2, goU);
    assert s3.m == Drop(s2.m, i, c);
    assert CanRun(s3, []) && End(s3, []) == s3;
    Prepend(s2, goU, []);
    Prepend(s1, goT, [goU] + []);
    Prepend(s, goT, [goT] + ([goU] + []));
    steps := [goT] + ([goT] + ([goU] + []));
  }
}
