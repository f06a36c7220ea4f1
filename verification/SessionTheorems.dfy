/**
 What callers of the connection manager can rely on: one dial at a time for an identity, exact
 reference counts, and the condition under which a manual retry is safe.
 */
module SessionTheorems {
  import opened Wrappers
  import opened Counting
  import opened SessionState
  import opened SessionSteps
  import opened SessionInvariants
  import opened SessionPreserve
  import opened SessionSafety
  import opened SessionRefs
  import opened SessionRuns

  // ----- single flight -----

  /** An identity is pending exactly while one goroutine dials it, and no second one does. */
  lemma SingleFlight(s: Sys, i: Ident)
    requires Inv(s)
    ensures i in s.m.pending <==> HasDialer(s, i)
    ensures forall t, u :: t in s.threads && u in s.threads && Dials(s.threads[t], i) && Dials(s.threads[u], i) ==> t == u
    ensures i in s.m.pending && i in s.m.connByIdent ==> i == LOCAL_IDENT
  {
    forall t | t in s.threads && Dials(s.threads[t], i)
      ensures i in s.m.pending && Closes(s.m, s.threads[t]) == Some(s.m.pending[i])
    {
      CoreAt(s, t);
    }
    forall t, u | t in s.threads && u in s.threads && Dials(s.threads[t], i) && Dials(s.threads[u], i)
      ensures t == u
    {
      if t != u { SoleCloser(s, t, u); }
    }
  }

  /**
   In every reachable state the identity index only names registered connections, under their own
   identity, and a caller that has returned was given a connection of the identity it asked for.
   */
  lemma IndexKeyed(s: Sys, i: Ident, t: nat)
    requires Reachable(s)
    ensures i in s.m.connByIdent ==>
      var c := s.m.connByIdent[i]; c in s.m.connections && c in s.m.heap && s.m.heap[c].ident == i
    ensures t in s.threads && s.threads[t].Returned? && s.threads[t].result.Some? ==>
      var c := s.threads[t].result.value; c in s.m.heap && s.m.heap[c].ident == s.threads[t].ident
  {
    ReachInv(s);
    CoreMaps(s);
    if t in s.threads { CoreAt(s, t); }
    hide Inv;
  }

  // ----- what callers get -----

  /**
   What a caller finds, in every reachable state: it reuses an indexed connection that is up, waits for
   one that somebody is reconnecting, drops one that failed, joins a dial that somebody makes, and
   otherwise becomes the only one to dial.  It is never blocked.
   */
  lemma ReuseWaitOrDial(s: Sys, t: nat, i: Ident)
    requires Reachable(s) && t in s.threads && s.threads[t] == Looking(i)
    ensures CanGo(s, s.threads[t], true)
    ensures Finds(s, t, i, AdvanceConnect(s, t, true, ReconnectConfig(true, 0)).threads[t])
  {
    ReachInv(s);
    FoundFacts(s, t, i);
    hide Inv, Reachable, Known, Finds;
    FindsIs(s, t, i);
  }

  /** What goroutine t, looking identity i up, does next. */
  ghost predicate Finds(s: Sys, t: nat, i: Ident, pc: Pc) {
    if i in s.m.connByIdent then
      var c := s.m.connByIdent[i];
      && c in s.m.connections && c in s.m.heap && s.m.heap[c].ident == i
      && match s.m.heap[c].phase
         case Connected => pc == Returned(i, Some(c))
         case Reconnecting => pc == AwaitingDone(i, c, s.m.heap[c].done) && HasOwner(s, c)
         case Failed => pc == Dropping(i, c)
    else if i in s.m.pending then pc == AwaitingGate(i, s.m.pending[i]) && HasDialer(s, i)
    else pc == Dialing(i, s.m.nextSignal) && forall u :: u in s.threads && u != t ==> !Dials(s.threads[u], i)
  }

  /** What the invariant says about an identity that is looked up. */
  ghost predicate Known(s: Sys, t: nat, i: Ident) {
    && (i in s.m.connByIdent ==>
          var c := s.m.connByIdent[i];
          && c in s.m.connections && c in s.m.heap && s.m.heap[c].ident == i
          && (s.m.heap[c].phase == Reconnecting ==> HasOwner(s, c)))
    && (i in s.m.pending ==> HasDialer(s, i))
    && (i !in s.m.pending ==> forall u :: u in s.threads && u != t ==> !Dials(s.threads[u], i))
  }

  lemma FoundFacts(s: Sys, t: nat, i: Ident)
    requires Inv(s)
    ensures Known(s, t, i)
  {
    CoreMaps(s);
    SingleFlight(s, i);
    if i in s.m.connByIdent { CoreConn(s, s.m.connByIdent[i]); }
    hide Inv;
  }

  lemma FindsIs(s: Sys, t: nat, i: Ident)
    requires Known(s, t, i) && t in s.threads && s.threads[t] == Looking(i)
    ensures CanGo(s, s.threads[t], true)
    ensures Finds(s, t, i, AdvanceConnect(s, t, true, ReconnectConfig(true, 0)).threads[t])
  {
    hide HasOwner, HasDialer, Dials;
  }

  /** The connection a call returns is registered and up. */
  predicate Usable(m: Shared, c: nat) {
    c in m.connections && c in m.heap && m.heap[c].phase == Connected
  }

  /** What stands between a caller and a usable connection at the step that returns it. */
  predicate GetsUsable(m: Shared, pc: Pc, c: nat) {
    match pc
    case Looking(_) => true
    case Rechecking(_, _) => c in m.connections
    case PastGate(_) => c in m.heap && m.heap[c].phase == Connected
    case _ => Usable(m, c)
  }

  /**
   The step at which ConnectOrReuse returns a connection: a caller on the fast path gets a usable one.
   One that waited for a reconnect gets one that is up, usable exactly unless it was torn down meanwhile;
   one that waited for a dial gets an indexed one, usable exactly if it is still up; and the one that
   dialled gets its own.
   */
  lemma WhatCallersGet(s: Sys, t: nat, ok: bool, cfg: ReconnectConfig, i: Ident, c: nat)
    requires Reachable(s) && t in s.threads && InConnect(s.threads[t]) && !s.threads[t].Returned?
    requires CanGo(s, s.threads[t], ok) && AdvanceConnect(s, t, ok, cfg).threads[t] == Returned(i, Some(c))
    ensures Gets(s.m, s.threads[t], AdvanceConnect(s, t, ok, cfg).m, i, c)
  {
    ReachInv(s);
    CoreMaps(s);
    CoreAt(s, t);
    hide Inv, Reachable;
    assert MayReturn(s.threads[t]) by {
      hide PcOk, MapsOk;
    }
    ReturnsFacts(s.m, s.threads[t]);
    hide PcOk, MapsOk, Fresh;
    GetsIs(s, t, ok, cfg, i, c);
  }

  /** The program counters from which ConnectOrReuse can return a connection. */
  predicate MayReturn(pc: Pc) {
    pc.Looking? || pc.Rechecking? || pc.PastGate? || pc.OpeningGate?
  }

  /** The connection that a goroutine at pc is given by the step from m to m'. */
  ghost predicate Gets(m: Shared, pc: Pc, m': Shared, i: Ident, c: nat) {
    && c in m'.heap && m'.heap[c].ident == i
    && (Usable(m', c) <==> GetsUsable(m, pc, c))
    && (pc.Rechecking? ==> m'.heap[c].phase == Connected)
    && (pc.PastGate? ==> c in m'.connections && i in m'.connByIdent && m'.connByIdent[i] == c)
    && (pc.OpeningGate? ==> pc.result == Some(c))
    && MayReturn(pc)
  }

  /** What the invariant says about the connection it can return. */
  predicate Returnable(m: Shared, pc: Pc) {
    && (pc.Looking? || pc.PastGate? ==>
          pc.ident in m.connByIdent ==>
            var c := m.connByIdent[pc.ident]; c in m.connections && c in m.heap && m.heap[c].ident == pc.ident)
    && (pc.Rechecking? ==> pc.conn in m.heap && m.heap[pc.conn].ident == pc.ident)
    && (pc.OpeningGate? && pc.result.Some? ==> pc.result.value in m.heap && m.heap[pc.result.value].ident == pc.ident)
  }

  lemma ReturnsFacts(m: Shared, pc: Pc)
    requires MapsOk(m) && PcOk(m, pc)
    ensures Returnable(m, pc)
  {}

  lemma GetsIs(s: Sys, t: nat, ok: bool, cfg: ReconnectConfig, i: Ident, c: nat)
    requires t in s.threads && MayReturn(s.threads[t]) && Returnable(s.m, s.threads[t])
    requires CanGo(s, s.threads[t], ok) && AdvanceConnect(s, t, ok, cfg).threads[t] == Returned(i, Some(c))
    ensures Gets(s.m, s.threads[t], AdvanceConnect(s, t, ok, cfg).m, i, c)
  {
    hide CanGo;
  }

  // ----- reference counts -----

  /**
   decrRefs on a registered connection answers true exactly when, after it, no channel of the
   connection is registered and no open or close of one is under way.
   */
  lemma LastRefIsLast(s: Sys, t: nat, c: nat, s': Sys)
    requires Inv(s) && t in s.threads && s.threads[t] == Decrementing(c) && c in s.m.connections && c in s.m.heap
    requires Enabled(s, Go(t, true, ReconnectConfig(true, 0))) && s' == Next(s, Go(t, true, ReconnectConfig(true, 0)))
    ensures c in s'.m.heap && s'.m.heap[c].refs == Holders(s', c)
    ensures LastRef(s.m, c) <==> Holders(s', c) == 0
    ensures Holders(s', c) == 0 ==> !HasChannels(s'.m, c)
  {
    RefsStep(s, Go(t, true, ReconnectConfig(true, 0)));
    DecrNext(s, t, c);
    hide Inv, Next, Enabled;
    if HasChannels(s'.m, c) { ChannelsCounted(s'.m, c); }
  }

  lemma DecrNext(s: Sys, t: nat, c: nat)
    requires t in s.threads && s.threads[t] == Decrementing(c) && c in s.m.heap
    ensures Next(s, Go(t, true, ReconnectConfig(true, 0)))
         == To(s, t, DecrRefs(s.m, c), if LastRef(s.m, c) then TearingDown(c) else Stopped)
  {}

  lemma ChannelsCounted(m: Shared, c: nat)
    requires HasChannels(m, c)
    ensures Count(m.channels, c) > 0
  {
    var ch :| ch in m.channels && m.channels[ch] == c;
    CountRemove(m.channels, ch, c);
  }

  // ----- manual retries -----

  /** What a goroutine that closes reconnectDone and touches nobody else leaves behind. */
  ghost predicate ClosedBy(s: Sys, s': Sys, t: nat, c: nat)
    requires c in s.m.heap
  {
    && s'.cancelled == s.cancelled && c in s'.m.heap && s'.m.heap[c].done == s.m.heap[c].done
    && s.m.heap[c].done in s'.m.closed
    && (s.m.heap[c].done in s.m.closed ==> s'.m.panicked)
    && (forall u :: u in s.threads && u != t ==> u in s'.threads && s'.threads[u] == s.threads[u])
  }

  lemma FailRunsDown(s: Sys, t: nat, c: nat, tear: bool) returns (steps: seq<Step>)
    requires t in s.threads && s.threads[t] == Failing(c, tear) && c in s.m.heap
    ensures CanRun(s, steps) && ClosedBy(s, End(s, steps), t, c)
  {
    var go := Go(t, false, ReconnectConfig(true, 0));
    var s1 := Next(s, go);
    var s2 := Next(s1, go);
    assert s2.m == Close(s1.m, s.m.heap[c].done);
    assert CanRun(s2, []) && End(s2, []) == s2;
    Prepend(s1, go, []);
    Prepend(s, go, [go] + []);
    steps := [go] + ([go] + []);
  }

  /** Once the application context is cancelled, a reconnect loop runs down to the close of its reconnectDone. */
  lemma LoopRunsDown(s: Sys, t: nat, c: nat) returns (steps: seq<Step>)
    requires t in s.threads && s.threads[t].Looping? && s.threads[t].conn == c && c in s.m.heap && s.cancelled
    ensures CanRun(s, steps) && ClosedBy(s, End(s, steps), t, c)
  {
    var go := Go(t, false, ReconnectConfig(true, 0));
    var s1 := Next(s, go);
    if s1.threads[t].Sleeping? {
      var s2 := Next(s1, go);
      var rest := FailRunsDown(s2, t, c, false);
      Prepend(s1, go, rest);
      Prepend(s, go, [go] + rest);
      steps := [go] + ([go] + rest);
    } else {
      var rest := FailRunsDown(s1, t, c, s1.threads[t].tear);
      Prepend(s, go, rest);
      steps := [go] + rest;
    }
  }

  /** A retry while the previous outage has not closed its signal makes two goroutines close the new one. */
  lemma RetryWhileClosing(s: Sys, t: nat, u: nat, c: nat, tear: bool) returns (steps: seq<Step>)
    requires t in s.threads && s.threads[t] == Retrying(c) && u in s.threads && u != t
    requires s.threads[u] == ClosingDone(c, tear) && c in s.m.heap
    ensures CanRun(s, steps) && End(s, steps).m.panicked
  {
    var go := Go(t, true, ReconnectConfig(true, 0));
    var close := Go(u, true, ReconnectConfig(true, 0));
    var s1 := Next(s, Cancel);
    var s2 := Next(s1, go);
    var s3 := Next(s2, close);
    var rest := LoopRunsDown(s3, t, c);
    Prepend(s2, close, rest);
    Prepend(s1, go, [close] + rest);
    Prepend(s, Cancel, [go] + ([close] + rest));
    steps := [Cancel] + ([go] + ([close] + rest));
  }

  /** Two retries at once start two loops that both close the last signal made. */
  lemma RetryTwice(s: Sys, t: nat, u: nat, c: nat) returns (steps: seq<Step>)
    requires t in s.threads && s.threads[t] == Retrying(c) && u in s.threads && u != t
    requires s.threads[u] == Retrying(c) && c in s.m.heap
    ensures CanRun(s, steps) && End(s, steps).m.panicked
  {
    var go := Go(t, true, ReconnectConfig(true, 0));
    var also := Go(u, true, ReconnectConfig(true, 0));
    var s1 := Next(s, Cancel);
    var s2 := Next(s1, go);
    var s3 := Next(s2, also);
    var first := LoopRunsDown(s3, t, c);
    var second := LoopRunsDown(End(s3, first), u, c);
    Append(s3, first, second);
    Prepend(s2, also, first + second);
    Prepend(s1, go, [also] + (first + second));
    Prepend(s, Cancel, [go] + ([also] + (first + second)));
    steps := [Cancel] + ([go] + ([also] + (first + second)));
  }

  /**
   RetryConnection checks and sets under two locks, and a loop that gives up sets the failed state
   before it closes the signal.  The retry is safe exactly when nobody runs an outage of the
   connection at the check: otherwise some continuation closes a signal twice, which is a panic.
   */
  lemma RetrySafeExactlyWhenIdle(s: Sys, t: nat, c: nat)
    requires Inv(s) && Enabled(s, Retry(t, c))
    ensures Idle(s, c) <==>
      forall steps :: CanRun(Next(s, Retry(t, c)), steps) ==> !End(Next(s, Retry(t, c)), steps).m.panicked
  {
    var s' := Next(s, Retry(t, c));
    if Idle(s, c) {
      InvStep(s, Retry(t, c));
      forall steps | CanRun(s', steps)
        ensures !End(s', steps).m.panicked
      {
        InvRun(s', steps);
      }
    } else {
      var u :| u in s.threads && Owns(s.threads[u], c);
      CoreAt(s, u);
      var steps;
      if s.threads[u].Retrying? {
        steps := RetryTwice(s', t, u, c);
      } else {
        steps := RetryWhileClosing(s', t, u, c, s.threads[u].tear);
      }
      assert CanRun(s', steps) && End(s', steps).m.panicked;
    }
  }
}
