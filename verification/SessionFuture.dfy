/**
 What is bound to follow: a usable connection is handed out, an outage that nobody needs is ended
 without a dial, one that ran out of dials leaves the connection for a manual retry, a dial that
 succeeded brings it back, and the last close forgets it.  Whatever the other goroutines do.
 */
module SessionFuture {
  import opened Wrappers
  import opened SessionState
  import opened SessionSteps
  import opened SessionInvariants
  import opened SessionPreserve
  import opened SessionSafety
  import opened SessionRuns
  import opened SessionTheorems
  import opened SessionLiveness
  import opened SessionIndex

  // ----- callers -----

  /**
   A caller that looks at a connection after waiting for its reconnect is given it exactly when it is
   up; then nothing else happens, and in particular a usable connection is never dropped.
   */
  lemma UsableIsReturned(s: Sys, t: nat, ok: bool, cfg: ReconnectConfig, i: Ident, c: nat)
    requires Reachable(s) && t in s.threads && s.threads[t] == Rechecking(i, c)
    ensures c in s.m.heap && CanGo(s, s.threads[t], ok)
    ensures s.m.heap[c].phase == Connected <==> AdvanceConnect(s, t, ok, cfg).threads[t] == Returned(i, Some(c))
    ensures Usable(s.m, c) ==> AdvanceConnect(s, t, ok, cfg) == To(s, t, s.m, Returned(i, Some(c)))
    ensures AdvanceConnect(s, t, ok, cfg).m == s.m
  {
    ReachInv(s);
    CoreAt(s, t);
    hide Inv, Reachable;
  }

  /** A caller that waited for another one's dial is given whatever is indexed for its identity, and nothing else. */
  lemma JoinerGetsIndexed(s: Sys, t: nat, ok: bool, cfg: ReconnectConfig, i: Ident)
    requires t in s.threads && s.threads[t] == PastGate(i)
    ensures CanGo(s, s.threads[t], ok) && AdvanceConnect(s, t, ok, cfg).m == s.m
    ensures forall c :: AdvanceConnect(s, t, ok, cfg).threads[t] == Returned(i, Some(c)) <==>
      i in s.m.connByIdent && s.m.connByIdent[i] == c
    ensures AdvanceConnect(s, t, ok, cfg).threads[t] == Returned(i, None) <==> i !in s.m.connByIdent
  {}

  /** Once its signal is closed a waiter can go on, and looks again; nothing changes in the meantime. */
  lemma WaiterWakes(s: Sys, t: nat, cfg: ReconnectConfig)
    requires t in s.threads
    ensures s.threads[t].AwaitingDone? && s.threads[t].done in s.m.closed ==>
      && CanGo(s, s.threads[t], true)
      && AdvanceConnect(s, t, true, cfg) == To(s, t, s.m, Rechecking(s.threads[t].ident, s.threads[t].conn))
    ensures s.threads[t].AwaitingGate? && s.threads[t].gate in s.m.closed ==>
      CanGo(s, s.threads[t], true) && AdvanceConnect(s, t, true, cfg) == To(s, t, s.m, PastGate(s.threads[t].ident))
  {}

  // ----- frames -----

  /** A step that is no business of goroutine t's with connection c: no retry of c, no new channel on it, no removal of it. */
  predicate Leaves(s: Sys, step: Step, t: nat, c: nat) {
    && !(step.Retry? && step.conn == c)
    && (step.Go? && step.t != t && step.t in s.threads ==>
          var pc := s.threads[step.t];
          pc != Inserting(c) && pc != TearingDown(c) && !(pc.Dropping? && pc.conn == c))
  }

  ghost predicate LeavesAlone(s: Sys, steps: seq<Step>, t: nat, c: nat)
    requires CanRun(s, steps)
    decreases |steps|
  {
    steps == [] || (Leaves(s, steps[0], t, c) && LeavesAlone(Next(s, steps[0]), steps[1..], t, c))
  }

  /** The connection as far as its outage is concerned. */
  ghost predicate SameOutage(m: Shared, m': Shared, c: nat)
    requires c in m.heap
  {
    && c in m'.heap && m'.heap[c].phase == m.heap[c].phase && m'.heap[c].done == m.heap[c].done
    && m'.heap[c].dials == m.heap[c].dials && m'.heap[c].cfg == m.heap[c].cfg
    && m'.heap[c].generation == m.heap[c].generation
    && m.closed <= m'.closed && ChannelsShrink(m, m', c)
    && (c in m'.connections <==> c in m.connections)
  }

  ghost predicate ChannelsShrink(m: Shared, m': Shared, c: nat) {
    forall ch :: ch in m'.channels && m'.channels[ch] == c ==> ch in m.channels && m.channels[ch] == c
  }

  lemma NoneAppear(m: Shared, m': Shared, c: nat)
    requires ChannelsShrink(m, m', c) && !HasChannels(m, c)
    ensures !HasChannels(m', c)
  {}

  /** A goroutine that does not run the outage of c, and does not kill it, leaves it as it is. */
  lemma OthersInConnect(s: Sys, t: nat, ok: bool, cfg: ReconnectConfig, c: nat)
    requires t in s.threads && CanGo(s, s.threads[t], ok) && InConnect(s.threads[t])
    requires c in s.m.heap && s.m.nextId !in s.m.heap && !(s.threads[t].Dropping? && s.threads[t].conn == c)
    ensures SameOutage(s.m, AdvanceConnect(s, t, ok, cfg).m, c)
    ensures t in AdvanceConnect(s, t, ok, cfg).threads && !Owns(AdvanceConnect(s, t, ok, cfg).threads[t], c)
  {}

  lemma OthersInOutage(s: Sys, t: nat, ok: bool, c: nat)
    requires t in s.threads && CanGo(s, s.threads[t], ok) && InOutage(s.threads[t])
    requires c in s.m.heap && !Owns(s.threads[t], c) && s.m.heap[c].phase != Connected
    ensures SameOutage(s.m, AdvanceOutage(s, t, ok).m, c)
    ensures t in AdvanceOutage(s, t, ok).threads && !Owns(AdvanceOutage(s, t, ok).threads[t], c)
  {
    hide AdvanceOutage, SameOutage, Owns;
    match s.threads[t]
    case Watching(d, gen) => KillLeaves(s, t, ok, d, gen, c);
    case Redialing(_, _) => EditStepLeaves(s, t, ok, c);
    case Reviving(_) => EditStepLeaves(s, t, ok, c);
    case Failing(_, _) => EditStepLeaves(s, t, ok, c);
    case Retrying(_) => EditStepLeaves(s, t, ok, c);
    case _ => QuietLeaves(s, t, ok, c);
  }

  lemma EditStepLeaves(s: Sys, t: nat, ok: bool, c: nat)
    requires t in s.threads && CanGo(s, s.threads[t], ok) && c in s.m.heap && !Owns(s.threads[t], c)
    requires var pc := s.threads[t]; pc.Redialing? || pc.Reviving? || pc.Failing? || pc.Retrying?
    ensures SameOutage(s.m, AdvanceOutage(s, t, ok).m, c)
    ensures t in AdvanceOutage(s, t, ok).threads && !Owns(AdvanceOutage(s, t, ok).threads[t], c)
  {
    EditLeaves(s.m, s.threads[t].conn, c);
    hide CountDial, SetFailed, Revive, ResetForRetry, SameOutage;
  }

  lemma QuietLeaves(s: Sys, t: nat, ok: bool, c: nat)
    requires t in s.threads && CanGo(s, s.threads[t], ok) && c in s.m.heap && !Owns(s.threads[t], c)
    requires var pc := s.threads[t];
      pc.Died? || pc.Looping? || pc.Sleeping? || pc.ClosingOld? || pc.ClosingDone?
    ensures SameOutage(s.m, AdvanceOutage(s, t, ok).m, c)
    ensures t in AdvanceOutage(s, t, ok).threads && !Owns(AdvanceOutage(s, t, ok).threads[t], c)
  {
    hide HasChannels;
  }

  lemma EditLeaves(m: Shared, d: nat, c: nat)
    requires d in m.heap && c in m.heap && d != c
    ensures SameOutage(m, CountDial(m, d), c) && SameOutage(m, SetFailed(m, d), c)
    ensures SameOutage(m, Revive(m, d), c) && SameOutage(m, ResetForRetry(m, d), c)
  {}

  lemma KillLeaves(s: Sys, t: nat, ok: bool, d: nat, gen: nat, c: nat)
    requires t in s.threads && s.threads[t] == Watching(d, gen) && d in s.m.heap && c in s.m.heap
             && s.m.heap[c].phase != Connected
    ensures SameOutage(s.m, AdvanceOutage(s, t, ok).m, c)
    ensures t in AdvanceOutage(s, t, ok).threads && !Owns(AdvanceOutage(s, t, ok).threads[t], c)
  {}

  lemma OthersInChannel(s: Sys, t: nat, ok: bool, c: nat)
    requires t in s.threads && CanGo(s, s.threads[t], ok) && !InConnect(s.threads[t]) && !InOutage(s.threads[t])
    requires c in s.m.heap && s.threads[t] != Inserting(c) && s.threads[t] != TearingDown(c)
    ensures SameOutage(s.m, AdvanceChannel(s, t, ok).m, c)
    ensures t in AdvanceChannel(s, t, ok).threads && !Owns(AdvanceChannel(s, t, ok).threads[t], c)
  {}

  lemma OthersStart(s: Sys, step: Step, c: nat)
    requires Enabled(s, step) && !step.Go? && c in s.m.heap && c != LOCAL && !(step.Retry? && step.conn == c)
    ensures SameOutage(s.m, Next(s, step).m, c)
    ensures !step.Cancel? ==> !Owns(Next(s, step).threads[step.t], c)
  {}

  lemma OthersLeave(s: Sys, step: Step, t: nat, c: nat)
    requires Enabled(s, step) && Leaves(s, step, t, c) && (step.Go? ==> step.t != t) && c != LOCAL
    requires c in s.m.heap && s.m.heap[c].phase != Connected && s.m.nextId !in s.m.heap
    requires step.Go? ==> !Owns(s.threads[step.t], c)
    ensures SameOutage(s.m, Next(s, step).m, c)
    ensures !step.Cancel? ==> step.t in Next(s, step).threads && !Owns(Next(s, step).threads[step.t], c)
  {
    hide Owns, SameOutage, AdvanceConnect, AdvanceOutage, AdvanceChannel, CanGo;
    if step.Go? {
      if InConnect(s.threads[step.t]) {
        OthersInConnect(s, step.t, step.ok, step.cfg, c);
      } else if InOutage(s.threads[step.t]) {
        OthersInOutage(s, step.t, step.ok, c);
      } else {
        OthersInChannel(s, step.t, step.ok, c);
      }
    } else {
      OthersStart(s, step, c);
    }
  }

  // ----- outages that end without a dial -----

  /**
   Goroutine t is ending the outage of c without another dial: `tear` if it found no channel in a turn,
   else because dials or turns ran out, auto-reconnect is off, or the program shuts down.  The signal
   is d, and n dials were made.
   */
  ghost predicate Ending(s: Sys, t: nat, c: nat, tear: bool, d: nat, n: nat) {
    && t in s.threads && c in s.m.heap && c != LOCAL && s.m.heap[c].done == d && s.m.heap[c].dials == n
    && (!tear ==> c in s.m.connections)
    && match s.threads[t]
       case Died(c') => c' == c && !tear && s.m.heap[c].phase == Reconnecting && !s.m.heap[c].cfg.enabled
       case Looping(c', a) =>
         && c' == c && s.m.heap[c].phase == Reconnecting
         && (if tear then a < s.m.heap[c].cfg.maxRetries && !HasChannels(s.m, c) else a >= s.m.heap[c].cfg.maxRetries)
       case Failing(c', tear') => c' == c && tear' == tear && s.m.heap[c].phase == Reconnecting
       case ClosingDone(c', tear') => c' == c && tear' == tear && s.m.heap[c].phase == Failed
       case TearingDown(c') => c' == c && tear && s.m.heap[c].phase == Failed && d in s.m.closed && Idle(s, c)
       case Stopped => s.m.heap[c].phase == Failed && d in s.m.closed && Idle(s, c) && (tear ==> c !in s.m.connections)
       case _ => false
  }

  /** The steps it has left. */
  function EndingSteps(pc: Pc, tear: bool): nat {
    match pc
    case Died(_) => 3
    case Looping(_, _) => if tear then 4 else 3
    case Failing(_, _) => if tear then 3 else 2
    case ClosingDone(_, _) => if tear then 2 else 1
    case TearingDown(_) => 1
    case _ => 0
  }

  lemma EndingOwn(s: Sys, t: nat, ok: bool, cfg: ReconnectConfig, c: nat, tear: bool, d: nat, n: nat)
    requires Core(s) && Ending(s, t, c, tear, d, n) && CanGo(s, s.threads[t], ok)
    ensures Ending(Advance(s, t, ok, cfg), t, c, tear, d, n)
    ensures EndingSteps(Advance(s, t, ok, cfg).threads[t], tear) == EndingSteps(s.threads[t], tear) - 1
  {
    if Owns(s.threads[t], c) { OnlyOwner(s, t, c); }
    hide Core;
    match s.threads[t]
    case Failing(_, _) => EndingFails(s, t, ok, cfg, c, tear, d, n);
    case ClosingDone(_, _) => EndingCloses(s, t, ok, cfg, c, tear, d, n);
    case TearingDown(_) => EndingTears(s, t, ok, cfg, c, tear, d, n);
    case _ => EndingTurns(s, t, ok, cfg, c, tear, d, n);
  }

  lemma EndingTurns(s: Sys, t: nat, ok: bool, cfg: ReconnectConfig, c: nat, tear: bool, d: nat, n: nat)
    requires Ending(s, t, c, tear, d, n) && CanGo(s, s.threads[t], ok) && (s.threads[t].Died? || s.threads[t].Looping?)
    ensures Ending(Advance(s, t, ok, cfg), t, c, tear, d, n)
    ensures EndingSteps(Advance(s, t, ok, cfg).threads[t], tear) == EndingSteps(s.threads[t], tear) - 1
  {
    hide HasChannels, Idle;
  }

  lemma EndingFails(s: Sys, t: nat, ok: bool, cfg: ReconnectConfig, c: nat, tear: bool, d: nat, n: nat)
    requires Ending(s, t, c, tear, d, n) && CanGo(s, s.threads[t], ok) && s.threads[t].Failing?
    ensures Ending(Advance(s, t, ok, cfg), t, c, tear, d, n)
    ensures EndingSteps(Advance(s, t, ok, cfg).threads[t], tear) == EndingSteps(s.threads[t], tear) - 1
  {
    hide HasChannels, Idle;
  }

  lemma EndingCloses(s: Sys, t: nat, ok: bool, cfg: ReconnectConfig, c: nat, tear: bool, d: nat, n: nat)
    requires Ending(s, t, c, tear, d, n) && CanGo(s, s.threads[t], ok) && s.threads[t].ClosingDone?
    requires forall u :: u in s.threads && u != t ==> !Owns(s.threads[u], c)
    ensures Ending(Advance(s, t, ok, cfg), t, c, tear, d, n)
    ensures EndingSteps(Advance(s, t, ok, cfg).threads[t], tear) == EndingSteps(s.threads[t], tear) - 1
  {
    hide HasChannels;
  }

  lemma EndingTears(s: Sys, t: nat, ok: bool, cfg: ReconnectConfig, c: nat, tear: bool, d: nat, n: nat)
    requires Ending(s, t, c, tear, d, n) && CanGo(s, s.threads[t], ok) && s.threads[t].TearingDown?
    ensures Ending(Advance(s, t, ok, cfg), t, c, tear, d, n)
    ensures EndingSteps(Advance(s, t, ok, cfg).threads[t], tear) == EndingSteps(s.threads[t], tear) - 1
  {
    IdleStays(s, Go(t, ok, cfg), c);
    hide HasChannels, Idle;
  }

  /** Nobody but t runs the outage. */
  lemma OnlyOwner(s: Sys, t: nat, c: nat)
    requires Core(s) && t in s.threads && Owns(s.threads[t], c)
    ensures forall u :: u in s.threads && u != t ==> !Owns(s.threads[u], c)
  {
    forall u | u in s.threads && u != t
      ensures !Owns(s.threads[u], c)
    {
      SoleOwner(s, t, c, u);
    }
    hide Core;
  }

  lemma EndingNotOwned(s: Sys, t: nat, c: nat, tear: bool, d: nat, n: nat, u: nat)
    requires Core(s) && Ending(s, t, c, tear, d, n) && u in s.threads && u != t
    ensures !Owns(s.threads[u], c)
  {
    if Owns(s.threads[t], c) { SoleOwner(s, t, c, u); }
    hide Core;
  }

  lemma EndingOthers(s: Sys, step: Step, t: nat, c: nat, tear: bool, d: nat, n: nat)
    requires Core(s) && Ending(s, t, c, tear, d, n) && Enabled(s, step) && Leaves(s, step, t, c)
    requires step.Go? ==> step.t != t
    requires s.m.nextId !in s.m.heap
    ensures Ending(Next(s, step), t, c, tear, d, n) && Next(s, step).threads[t] == s.threads[t]
  {
    OtherThreads(s, step, t);
    if step.Go? { EndingNotOwned(s, t, c, tear, d, n, step.t); }
    OthersLeave(s, step, t, c);
    if Idle(s, c) { IdleStays(s, step, c); }
    if !HasChannels(s.m, c) { NoneAppear(s.m, Next(s, step).m, c); }
    hide Core, Next, Enabled, HasChannels, Owns, Idle;
  }

  lemma IdleStays(s: Sys, step: Step, c: nat)
    requires Enabled(s, step) && Idle(s, c)
    requires !step.Cancel? ==> step.t in Next(s, step).threads && !Owns(Next(s, step).threads[step.t], c)
    ensures Idle(Next(s, step), c)
  {
    forall u | u in Next(s, step).threads
      ensures !Owns(Next(s, step).threads[u], c)
    {
      if step.Cancel? || u != step.t { ThreadStays(s, step, u); }
    }
  }

  lemma ThreadStays(s: Sys, step: Step, u: nat)
    requires Enabled(s, step) && u in Next(s, step).threads && (!step.Cancel? ==> u != step.t)
    ensures u in s.threads && Next(s, step).threads[u] == s.threads[u]
  {}

  lemma {:induction false} EndingRun(s: Sys, steps: seq<Step>, t: nat, c: nat, tear: bool, d: nat, n: nat)
    requires Inv(s) && CanRun(s, steps) && LeavesAlone(s, steps, t, c) && Ending(s, t, c, tear, d, n)
    requires StepsOf(steps, t) >= EndingSteps(s.threads[t], tear)
    ensures var s' := End(s, steps);
      Ending(s', t, c, tear, d, n) && s'.threads[t] == Stopped
    decreases |steps|
  {
    if steps != [] {
      assert Core(s);
      var step := steps[0];
      InvMaps(s);
      InvStep(s, step);
      hide Inv, Core, Ending;
      if step.Go? && step.t == t {
        EndingOwn(s, t, step.ok, step.cfg, c, tear, d, n);
      } else {
        EndingOthers(s, step, t, c, tear, d, n);
      }
      EndingRun(Next(s, step), steps[1..], t, c, tear, d, n);
    } else {
      NoStepsLeft(s.threads[t], tear, s, t, c, d, n);
    }
  }

  lemma NoStepsLeft(pc: Pc, tear: bool, s: Sys, t: nat, c: nat, d: nat, n: nat)
    requires Ending(s, t, c, tear, d, n) && s.threads[t] == pc && EndingSteps(pc, tear) == 0
    ensures pc == Stopped
  {}

  /**
   When a turn of the loop finds no channel on the connection, and nobody opens one or retries, every
   run in which the goroutine takes its four steps ends with the connection failed, its signal
   closed, the connection out of both maps, and not one dial more.
   */
  lemma UnusedIsForgotten(s: Sys, steps: seq<Step>, t: nat, c: nat, a: nat)
    requires Inv(s) && t in s.threads && s.threads[t] == Looping(c, a) && c in s.m.heap
    requires a < s.m.heap[c].cfg.maxRetries && !HasChannels(s.m, c)
    requires CanRun(s, steps) && LeavesAlone(s, steps, t, c) && StepsOf(steps, t) >= 4
    ensures var m := End(s, steps).m;
      && c in m.heap && m.heap[c].phase == Failed && m.heap[c].dials == s.m.heap[c].dials
      && m.heap[c].done == s.m.heap[c].done && m.heap[c].done in m.closed
      && c !in m.connections && forall i :: i in m.connByIdent ==> m.connByIdent[i] != c
  {
    CoreAt(s, t);
    hide *;
    UnusedEnds(s, t, c, a);
    EndingRun(s, steps, t, c, true, s.m.heap[c].done, s.m.heap[c].dials);
    InvRun(s, steps);
    EndedUnused(End(s, steps), t, c, s.m.heap[c].done, s.m.heap[c].dials);
  }

  lemma UnusedEnds(s: Sys, t: nat, c: nat, a: nat)
    requires t in s.threads && s.threads[t] == Looping(c, a) && PcOk(s.m, s.threads[t]) && c in s.m.heap
    requires a < s.m.heap[c].cfg.maxRetries && !HasChannels(s.m, c)
    ensures Ending(s, t, c, true, s.m.heap[c].done, s.m.heap[c].dials) && EndingSteps(s.threads[t], true) == 4
  {}

  lemma EndedUnused(s: Sys, t: nat, c: nat, d: nat, n: nat)
    requires Inv(s) && Ending(s, t, c, true, d, n) && s.threads[t] == Stopped
    ensures c in s.m.heap && s.m.heap[c].phase == Failed && s.m.heap[c].dials == n && s.m.heap[c].done == d
    ensures d in s.m.closed && c !in s.m.connections && forall i :: i in s.m.connByIdent ==> s.m.connByIdent[i] != c
  {
    CoreMaps(s);
    hide Inv;
  }

  /** Why an outage ends without another dial, and leaves the connection registered. */
  predicate GivesUp(s: Sys, t: nat, c: nat) {
    && t in s.threads && c in s.m.heap
    && match s.threads[t]
       case Died(c') => c' == c && !s.m.heap[c].cfg.enabled
       case Looping(c', a) => c' == c && a >= s.m.heap[c].cfg.maxRetries
       case Failing(c', tear) => c' == c && !tear
       case _ => false
  }

  /**
   With auto-reconnect off, or after MaxRetries dials, or when the program shuts down, every run in which the
   goroutine takes three steps ends with the connection failed and its signal closed; but it stays
   registered for a manual retry, unless another goroutine removes it.
   */
  lemma GivenUpStays(s: Sys, steps: seq<Step>, t: nat, c: nat)
    requires Inv(s) && GivesUp(s, t, c) && c in s.m.connections
    requires CanRun(s, steps) && LeavesAlone(s, steps, t, c) && StepsOf(steps, t) >= EndingSteps(s.threads[t], false)
    ensures var m := End(s, steps).m;
      && c in m.heap && m.heap[c].phase == Failed && m.heap[c].dials == s.m.heap[c].dials
      && m.heap[c].done == s.m.heap[c].done && m.heap[c].done in m.closed && c in m.connections
  {
    CoreAt(s, t);
    hide *;
    GivenUpEnds(s, t, c);
    EndingRun(s, steps, t, c, false, s.m.heap[c].done, s.m.heap[c].dials);
    EndedFailed(End(s, steps), t, c, s.m.heap[c].done, s.m.heap[c].dials);
  }

  lemma GivenUpEnds(s: Sys, t: nat, c: nat)
    requires GivesUp(s, t, c) && PcOk(s.m, s.threads[t]) && c in s.m.connections
    ensures Ending(s, t, c, false, s.m.heap[c].done, s.m.heap[c].dials)
  {}

  lemma EndedFailed(s: Sys, t: nat, c: nat, d: nat, n: nat)
    requires Ending(s, t, c, false, d, n) && s.threads[t] == Stopped
    ensures c in s.m.heap && s.m.heap[c].phase == Failed && s.m.heap[c].dials == n && s.m.heap[c].done == d
    ensures d in s.m.closed && c in s.m.connections
  {}

  /** Shutting down while the loop sleeps is such an end. */
  lemma ShutdownGivesUp(s: Sys, t: nat, c: nat, a: nat, cfg: ReconnectConfig)
    requires Inv(s) && t in s.threads && s.threads[t] == Sleeping(c, a) && s.cancelled
    ensures CanGo(s, s.threads[t], false) && GivesUp(Advance(s, t, false, cfg), t, c) && Advance(s, t, false, cfg).m == s.m
  {
    CoreAt(s, t);
    hide *;
    SleepStops(s, t, c, a, cfg);
  }

  lemma SleepStops(s: Sys, t: nat, c: nat, a: nat, cfg: ReconnectConfig)
    requires PcOk(s.m, Sleeping(c, a)) && t in s.threads && s.threads[t] == Sleeping(c, a) && s.cancelled
    ensures CanGo(s, s.threads[t], false) && GivesUp(Advance(s, t, false, cfg), t, c) && Advance(s, t, false, cfg).m == s.m
  {}

  // ----- a dial that succeeds -----

  /**
   Once a dial has succeeded the connection is up in its next generation at some point of every run in
   which the goroutine takes its next step, with a signal that is open.
   */
  lemma {:induction false} DialBringsBack(s: Sys, steps: seq<Step>, t: nat, c: nat) returns (k: nat)
    requires Inv(s) && t in s.threads && s.threads[t] == Reviving(c) && c in s.m.heap
    requires CanRun(s, steps) && StepsOf(steps, t) >= 1
    ensures k <= |steps| && CanRun(s, steps[..k])
    ensures var m := End(s, steps[..k]).m;
      && c in m.heap && m.heap[c].phase == Connected && m.heap[c].generation == s.m.heap[c].generation + 1
      && m.heap[c].done !in m.closed && m.heap[c].done != s.m.heap[c].done
    decreases |steps|
  {
    hide *;
    RunHead(s, steps, t);
    var step := steps[0];
    var s1 := Next(s, step);
    InvStep(s, step);
    if step.Go? && step.t == t {
      k := 1;
      RunPrefix(s, steps, 0);
      RevivedIsUp(s, t, step, c);
    } else {
      RevivingWaits(s, step, t, c);
      var j := DialBringsBack(s1, steps[1..], t, c);
      k := j + 1;
      RunPrefix(s, steps, j);
    }
  }

  lemma RunHead(s: Sys, steps: seq<Step>, t: nat)
    requires CanRun(s, steps) && StepsOf(steps, t) >= 1
    ensures steps != [] && Enabled(s, steps[0]) && Disciplined(s, steps[0]) && CanRun(Next(s, steps[0]), steps[1..])
    ensures CanRun(Next(s, steps[0]), steps[1..][..0])
    ensures End(Next(s, steps[0]), steps[1..][..0]) == Next(s, steps[0])
    ensures !(steps[0].Go? && steps[0].t == t) ==> StepsOf(steps[1..], t) >= 1
  {
    hide Enabled, Disciplined, Next;
    assert steps[1..][..0] == [];
  }

  lemma RunPrefix(s: Sys, steps: seq<Step>, j: nat)
    requires CanRun(s, steps) && j + 1 <= |steps| && CanRun(Next(s, steps[0]), steps[1..][..j])
    ensures CanRun(s, steps[..j + 1]) && End(s, steps[..j + 1]) == End(Next(s, steps[0]), steps[1..][..j])
  {
    hide Next, Enabled, Disciplined;
    assert steps[..j + 1] == [steps[0]] + steps[1..][..j];
    Prepend(s, steps[0], steps[1..][..j]);
  }

  lemma RevivedIsUp(s: Sys, t: nat, step: Step, c: nat)
    requires Inv(s) && t in s.threads && s.threads[t] == Reviving(c) && c in s.m.heap
    requires step.Go? && step.t == t && Enabled(s, step) && Disciplined(s, step) && Inv(Next(s, step))
    ensures var m := Next(s, step).m;
      && c in m.heap && m.heap[c].phase == Connected && m.heap[c].generation == s.m.heap[c].generation + 1
      && m.heap[c].done !in m.closed && m.heap[c].done != s.m.heap[c].done
  {
    CoreConn(s, c);
    RevivesNow(s, t, step.ok, step.cfg, c);
    CoreConn(Next(s, step), c);
    hide Inv;
  }

  lemma RevivesNow(s: Sys, t: nat, ok: bool, cfg: ReconnectConfig, c: nat)
    requires t in s.threads && s.threads[t] == Reviving(c) && c in s.m.heap && s.m.heap[c].done < s.m.nextSignal
    ensures var m := Advance(s, t, ok, cfg).m;
      && c in m.heap && m.heap[c].phase == Connected && m.heap[c].generation == s.m.heap[c].generation + 1
      && m.heap[c].done != s.m.heap[c].done
  {}

  lemma RevivingWaits(s: Sys, step: Step, t: nat, c: nat)
    requires Inv(s) && t in s.threads && s.threads[t] == Reviving(c) && c in s.m.heap && Enabled(s, step)
    requires Disciplined(s, step) && (step.Go? ==> step.t != t)
    ensures var s1 := Next(s, step);
      && t in s1.threads && s1.threads[t] == Reviving(c) && c in s1.m.heap
      && s1.m.heap[c].generation == s.m.heap[c].generation && s1.m.heap[c].done == s.m.heap[c].done
  {
    assert Core(s);
    OtherThreads(s, step, t);
    InvMaps(s);
    CoreAt(s, t);
    if step.Go? { SoleOwner(s, t, c, step.t); }
    OwnerFrame(s, step, t, c);
    hide Inv, Core;
    GenerationStays(s, step, t, c);
  }

  lemma GenerationStays(s: Sys, step: Step, t: nat, c: nat)
    requires Enabled(s, step) && c in s.m.heap && s.m.nextId !in s.m.heap && c != LOCAL
    requires step.Go? ==> s.threads[step.t] != Reviving(c)
    ensures c in Next(s, step).m.heap && Next(s, step).m.heap[c].generation == s.m.heap[c].generation
  {
    hide CanGo, HasChannels, AdvanceConnect, AdvanceOutage, AdvanceChannel;
    if step.Go? {
      if InConnect(s.threads[step.t]) {
        GenerationInConnect(s, step.t, step.ok, step.cfg, c);
      } else if InOutage(s.threads[step.t]) {
        GenerationInOutage(s, step.t, step.ok, c);
      } else {
        GenerationInChannel(s, step.t, step.ok, c);
      }
    }
  }

  lemma GenerationInConnect(s: Sys, t: nat, ok: bool, cfg: ReconnectConfig, c: nat)
    requires t in s.threads && CanGo(s, s.threads[t], ok) && InConnect(s.threads[t]) && c in s.m.heap && s.m.nextId !in s.m.heap
    ensures c in AdvanceConnect(s, t, ok, cfg).m.heap
    ensures AdvanceConnect(s, t, ok, cfg).m.heap[c].generation == s.m.heap[c].generation
  {}

  lemma GenerationInOutage(s: Sys, t: nat, ok: bool, c: nat)
    requires t in s.threads && CanGo(s, s.threads[t], ok) && InOutage(s.threads[t]) && c in s.m.heap
    requires s.threads[t] != Reviving(c)
    ensures c in AdvanceOutage(s, t, ok).m.heap
    ensures AdvanceOutage(s, t, ok).m.heap[c].generation == s.m.heap[c].generation
  {
    hide HasChannels;
  }

  lemma GenerationInChannel(s: Sys, t: nat, ok: bool, c: nat)
    requires t in s.threads && CanGo(s, s.threads[t], ok) && !InConnect(s.threads[t]) && !InOutage(s.threads[t])
    requires c in s.m.heap
    ensures c in AdvanceChannel(s, t, ok).m.heap
    ensures AdvanceChannel(s, t, ok).m.heap[c].generation == s.m.heap[c].generation
  {}

  // ----- the last close -----

  /** A goroutine that is about to tear a remote connection down has done so after its next step, in every run. */
  lemma {:induction false} TornDownForGood(s: Sys, steps: seq<Step>, t: nat, c: nat)
    requires Inv(s) && t in s.threads && s.threads[t] == TearingDown(c) && c in s.m.heap && c != LOCAL
    requires CanRun(s, steps) && StepsOf(steps, t) >= 1
    ensures Gone(End(s, steps).m, c) && forall i :: i in End(s, steps).m.connByIdent ==> End(s, steps).m.connByIdent[i] != c
    decreases |steps|
  {
    hide *;
    RunHead(s, steps, t);
    var step := steps[0];
    InvStep(s, step);
    if step.Go? && step.t == t {
      TearsNow(s, step, t, c);
      GoneStaysGone(Next(s, step), steps[1..], c);
    } else {
      OtherThreads(s, step, t);
      HeapGrows(s, step, c);
      TornDownForGood(Next(s, step), steps[1..], t, c);
    }
    RunTail(s, steps);
  }

  lemma RunTail(s: Sys, steps: seq<Step>)
    requires CanRun(s, steps) && steps != []
    ensures Enabled(s, steps[0]) && CanRun(Next(s, steps[0]), steps[1..])
    ensures End(s, steps) == End(Next(s, steps[0]), steps[1..])
  {}

  lemma TearsNow(s: Sys, step: Step, t: nat, c: nat)
    requires t in s.threads && s.threads[t] == TearingDown(c) && c in s.m.heap && c != LOCAL
    requires step.Go? && step.t == t && Enabled(s, step)
    ensures Gone(Next(s, step).m, c)
  {}

  lemma HeapGrows(s: Sys, step: Step, c: nat)
    requires Inv(s) && Enabled(s, step) && c in s.m.heap
    ensures c in Next(s, step).m.heap
  {
    InvMaps(s);
    ConnFrame(s, step, c);
    hide Inv;
  }

  /** When the last reference to a registered connection goes, the connection is forgotten. */
  lemma LastCloseForgets(s: Sys, steps: seq<Step>, t: nat, c: nat)
    requires Inv(s) && t in s.threads && s.threads[t] == Decrementing(c) && c in s.m.connections && c != LOCAL
    requires Holders(s, c) == 1 && CanRun(s, [Go(t, true, ReconnectConfig(true, 0))] + steps) && StepsOf(steps, t) >= 1
    ensures Gone(End(s, [Go(t, true, ReconnectConfig(true, 0))] + steps).m, c)
  {
    var go := Go(t, true, ReconnectConfig(true, 0));
    assert ([go] + steps)[1..] == steps;
    CoreMaps(s);
    InvStep(s, go);
    DecrNext(s, t, c);
    assert LastRef(s.m, c);
    TornDownForGood(Next(s, go), steps, t, c);
  }
}
