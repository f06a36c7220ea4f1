/**
 Wake-ups: every signal is closed at most once, every waiter waits for a signal that somebody will
 close, and that somebody gets there within a bounded number of its own steps.
 */
module SessionLiveness {
  import opened Wrappers
  import opened SessionState
  import opened SessionSteps
  import opened SessionInvariants
  import opened SessionPreserve
  import opened SessionSafety
  import opened SessionRuns

  // ----- closed once -----

  /** The step is a close of the signal. */
  predicate ClosesIn(s: Sys, step: Step, signal: nat) {
    && step.Go? && step.t in s.threads
    && match s.threads[step.t]
       case OpeningGate(_, g, _) => g == signal
       case ClosingOld(d) => d == signal
       case ClosingDone(c, _) => c in s.m.heap && s.m.heap[c].done == signal
       case _ => false
  }

  function Closings(s: Sys, steps: seq<Step>, signal: nat): nat
    requires CanRun(s, steps)
    decreases |steps|
  {
    if steps == [] then 0
    else (if ClosesIn(s, steps[0], signal) then 1 else 0) + Closings(Next(s, steps[0]), steps[1..], signal)
  }

  lemma ClosedStep(s: Sys, step: Step, signal: nat)
    requires Inv(s) && Enabled(s, step)
    ensures signal in Next(s, step).m.closed <==> signal in s.m.closed || ClosesIn(s, step, signal)
    ensures ClosesIn(s, step, signal) ==> signal !in s.m.closed
  {
    if ClosesIn(s, step, signal) { ClosesOpen(s, step.t); }
    hide Inv, PcOk;
    match step
    case Go(t, ok, cfg) => ClosedGo(s, t, ok, cfg, signal);
    case _ =>
  }

  lemma ClosedGo(s: Sys, t: nat, ok: bool, cfg: ReconnectConfig, signal: nat)
    requires t in s.threads && CanGo(s, s.threads[t], ok)
    ensures signal in Advance(s, t, ok, cfg).m.closed <==> signal in s.m.closed || ClosesIn(s, Go(t, ok, cfg), signal)
  {
    if InConnect(s.threads[t]) {
      assert signal in AdvanceConnect(s, t, ok, cfg).m.closed <==> signal in s.m.closed || ClosesIn(s, Go(t, ok,
             cfg), signal);
    } else if InOutage(s.threads[t]) {
      assert signal in AdvanceOutage(s, t, ok).m.closed <==> signal in s.m.closed || ClosesIn(s, Go(t, ok, cfg),
             signal);
    }
  }

  /** In every run each gate and each reconnectDone is closed at most once, and `closed` records which. */
  lemma {:induction false} ClosedAtMostOnce(s: Sys, steps: seq<Step>, signal: nat)
    requires Inv(s) && CanRun(s, steps)
    ensures Closings(s, steps, signal) <= 1
    ensures signal in s.m.closed ==> Closings(s, steps, signal) == 0
    ensures signal in End(s, steps).m.closed <==> signal in s.m.closed || Closings(s, steps, signal) == 1
    decreases |steps|
  {
    if steps != [] {
      ClosedStep(s, steps[0], signal);
      InvStep(s, steps[0]);
      ClosedAtMostOnce(Next(s, steps[0]), steps[1..], signal);
    }
  }

  /**
   In every reachable state the signal of an outage is closed only after its connection has left the
   outage; once nobody runs an outage of a failed connection, it is closed.
   */
  lemma OutageOverWhenClosed(s: Sys, c: nat)
    requires Reachable(s) && c in s.m.heap
    ensures s.m.heap[c].done in s.m.closed ==> s.m.heap[c].phase == Failed
    ensures s.m.heap[c].phase == Failed && Idle(s, c) ==> s.m.heap[c].done in s.m.closed
  {
    ReachInv(s);
    CoreConn(s, c);
    hide Inv;
  }

  // ----- no lost wake-up -----

  /** Steps that goroutine `pc` still has to take before it closes its signal, at most. */
  function StepsLeft(m: Shared, pc: Pc): nat {
    match pc
    case Dialing(_, _) => 3
    case DialFailed(_, _) => 2
    case DialDone(_, _, _) => 2
    case OpeningGate(_, _, _) => 1
    case Died(c) => OutageSteps(m, c, 0) + 1
    case Looping(c, a) => OutageSteps(m, c, a)
    case Sleeping(c, a) => if c in m.heap && a < Budget(m, c) then OutageSteps(m, c, a) - 1 else 0
    case Redialing(c, a) => if c in m.heap && a < Budget(m, c) then OutageSteps(m, c, a) - 2 else 0
    case Reviving(_) => 2
    case Failing(_, _) => 2
    case ClosingOld(_) => 1
    case ClosingDone(_, _) => 1
    case _ => 0
  }

  /** Three steps a dial, then three to fail. */
  function OutageSteps(m: Shared, c: nat, attempt: nat): nat {
    if c in m.heap && attempt <= Budget(m, c) then 3 * (Budget(m, c) - attempt) + 3 else 0
  }

  ghost predicate GetsCloser(m: Shared, pc: Pc, m': Shared, pc': Pc, d: nat) {
    d in m'.closed || (Closes(m', pc') == Some(d) && StepsLeft(m', pc') < StepsLeft(m, pc))
  }

  lemma DialerProgress(s: Sys, t: nat, ok: bool, cfg: ReconnectConfig, d: nat)
    requires t in s.threads && Closes(s.m, s.threads[t]) == Some(d) && CanGo(s, s.threads[t], ok)
             && InConnect(s.threads[t])
    ensures var s' := AdvanceConnect(s, t, ok, cfg);
      t in s'.threads && GetsCloser(s.m, s.threads[t], s'.m, s'.threads[t], d)
  {}

  lemma OwnerProgress(s: Sys, t: nat, ok: bool, d: nat)
    requires t in s.threads && Closes(s.m, s.threads[t]) == Some(d) && CanGo(s, s.threads[t], ok)
             && InOutage(s.threads[t])
    requires PcOk(s.m, s.threads[t])
    ensures var s' := AdvanceOutage(s, t, ok);
      t in s'.threads && GetsCloser(s.m, s.threads[t], s'.m, s'.threads[t], d)
  {
    hide HasChannels, Fresh;
    match s.threads[t]
    case Reviving(_) =>
    case ClosingOld(_) =>
    case Failing(_, _) =>
    case ClosingDone(_, _) =>
    case Retrying(_) =>
    case Redialing(_, _) => RedialProgress(s, t, ok, d);
    case _ => LoopProgress(s, t, ok, d);
  }

  lemma RedialProgress(s: Sys, t: nat, ok: bool, d: nat)
    requires t in s.threads && Closes(s.m, s.threads[t]) == Some(d) && CanGo(s, s.threads[t], ok)
             && s.threads[t].Redialing?
    requires PcOk(s.m, s.threads[t])
    ensures var s' := AdvanceOutage(s, t, ok);
      t in s'.threads && GetsCloser(s.m, s.threads[t], s'.m, s'.threads[t], d)
  {
    hide Fresh;
  }

  lemma LoopProgress(s: Sys, t: nat, ok: bool, d: nat)
    requires t in s.threads && Closes(s.m, s.threads[t]) == Some(d) && CanGo(s, s.threads[t], ok)
    requires s.threads[t].Died? || s.threads[t].Looping? || s.threads[t].Sleeping?
    requires PcOk(s.m, s.threads[t])
    ensures var s' := AdvanceOutage(s, t, ok);
      t in s'.threads && GetsCloser(s.m, s.threads[t], s'.m, s'.threads[t], d)
  {
    hide HasChannels, Fresh;
  }

  /** Each step of the goroutine that is going to close a signal brings it nearer to doing so. */
  lemma CloserProgress(s: Sys, t: nat, ok: bool, cfg: ReconnectConfig, d: nat)
    requires Inv(s) && t in s.threads && Closes(s.m, s.threads[t]) == Some(d) && CanGo(s, s.threads[t], ok)
    ensures var s' := Advance(s, t, ok, cfg);
      t in s'.threads && GetsCloser(s.m, s.threads[t], s'.m, s'.threads[t], d)
  {
    CoreAt(s, t);
    hide Inv, Core, PcOk, CanGo, GetsCloser, AdvanceConnect, AdvanceOutage, AdvanceChannel;
    if InConnect(s.threads[t]) {
      DialerProgress(s, t, ok, cfg, d);
    } else {
      OwnerProgress(s, t, ok, d);
    }
  }

  /** It never has to wait for another signal on the way. */
  lemma CloserCanGo(s: Sys, t: nat, cfg: ReconnectConfig)
    requires Inv(s) && t in s.threads && Closes(s.m, s.threads[t]).Some?
    ensures Enabled(s, Go(t, true, cfg)) && StepsLeft(s.m, s.threads[t]) > 0
  {
    CoreAt(s, t);
  }

  /** What a step may do to a connection it does not revive or retry. */
  lemma ConnFrame(s: Sys, step: Step, c: nat)
    requires Enabled(s, step) && c in s.m.heap && s.m.nextId !in s.m.heap
             && (LOCAL in s.m.heap ==> LOCAL in s.m.connections)
    ensures SameConn(s.m, Next(s, step).m, if step.Go? then s.threads[step.t] else Stopped, c)
  {
    hide CanGo;
    match step
    case Go(t, ok, cfg) => ConnFrameGo(s, t, ok, cfg, c);
    case _ =>
  }

  ghost predicate SameConn(m: Shared, m': Shared, pc: Pc, c: nat)
    requires c in m.heap
  {
    && c in m'.heap && m'.heap[c].cfg == m.heap[c].cfg
    && (m'.heap[c].done == m.heap[c].done || pc == Reviving(c) || pc == Retrying(c))
  }

  lemma ConnFrameConnect(s: Sys, t: nat, ok: bool, cfg: ReconnectConfig, c: nat)
    requires t in s.threads && CanGo(s, s.threads[t], ok) && c in s.m.heap && s.m.nextId !in s.m.heap
             && InConnect(s.threads[t])
    ensures SameConn(s.m, AdvanceConnect(s, t, ok, cfg).m, s.threads[t], c)
  {}

  ghost predicate KeepsDone(m: Shared, m': Shared, c: nat)
    requires c in m.heap
  {
    c in m'.heap && m'.heap[c].cfg == m.heap[c].cfg && m'.heap[c].done == m.heap[c].done
  }

  lemma EditsKeepDone(m: Shared, d: nat, gen: nat, c: nat)
    requires d in m.heap && c in m.heap
    ensures KeepsDone(m, MarkDead(m, d, gen), c) && KeepsDone(m, CountDial(m, d), c) && KeepsDone(m, SetFailed(m, d), c)
    ensures d != c ==> KeepsDone(m, Revive(m, d), c) && KeepsDone(m, ResetForRetry(m, d), c)
    ensures SameConn(m, Revive(m, d), Reviving(d), c) && SameConn(m, ResetForRetry(m, d), Retrying(d), c)
  {}

  lemma ConnFrameOutage(s: Sys, t: nat, ok: bool, c: nat)
    requires t in s.threads && CanGo(s, s.threads[t], ok) && c in s.m.heap && InOutage(s.threads[t])
    ensures SameConn(s.m, AdvanceOutage(s, t, ok).m, s.threads[t], c)
  {
    hide HasChannels, Kills, MarkDead, CountDial, SetFailed, Revive, ResetForRetry;
    match s.threads[t]
    case Watching(d, gen) => EditsKeepDone(s.m, d, gen, c);
    case Redialing(d, _) => EditsKeepDone(s.m, d, 0, c);
    case Reviving(d) => EditsKeepDone(s.m, d, 0, c);
    case Failing(d, _) => EditsKeepDone(s.m, d, 0, c);
    case Retrying(d) => EditsKeepDone(s.m, d, 0, c);
    case _ =>
  }

  lemma ConnFrameGo(s: Sys, t: nat, ok: bool, cfg: ReconnectConfig, c: nat)
    requires t in s.threads && CanGo(s, s.threads[t], ok) && c in s.m.heap && s.m.nextId !in s.m.heap
    ensures SameConn(s.m, Advance(s, t, ok, cfg).m, s.threads[t], c)
  {
    hide CanGo, AdvanceConnect, AdvanceOutage;
    if InConnect(s.threads[t]) {
      ConnFrameConnect(s, t, ok, cfg, c);
    } else if InOutage(s.threads[t]) {
      ConnFrameOutage(s, t, ok, c);
    }
  }

  /** The other goroutines neither take its signal away nor send it back. */
  lemma OthersKeepCloser(s: Sys, step: Step, t: nat, d: nat)
    requires Inv(s) && Enabled(s, step) && t in s.threads && Closes(s.m, s.threads[t]) == Some(d)
    requires step.Go? ==> step.t != t
    ensures var s' := Next(s, step);
      && t in s'.threads && s'.threads[t] == s.threads[t]
      && Closes(s'.m, s'.threads[t]) == Some(d) && StepsLeft(s'.m, s'.threads[t]) == StepsLeft(s.m, s.threads[t])
  {
    OtherThreads(s, step, t);
    CoreAt(s, t);
    InvMaps(s);
    assert Core(s);
    hide Inv, Core, Next, Enabled;
    var pc := s.threads[t];
    if exists c :: c in s.m.heap && Owns(pc, c) {
      var c :| c in s.m.heap && Owns(pc, c);
      OwnerFrame(s, step, t, c);
      SameStepsLeft(s.m, Next(s, step).m, pc, c);
    }
  }

  lemma OwnerFrame(s: Sys, step: Step, t: nat, c: nat)
    requires Core(s) && Enabled(s, step) && t in s.threads && c in s.m.heap && Owns(s.threads[t], c)
    requires step.Go? ==> step.t != t
    requires s.m.nextId !in s.m.heap && (LOCAL in s.m.heap ==> LOCAL in s.m.connections)
    ensures var m' := Next(s, step).m;
      c in m'.heap && m'.heap[c].cfg == s.m.heap[c].cfg && m'.heap[c].done == s.m.heap[c].done
  {
    hide Core, Next;
    ConnFrame(s, step, c);
    if step.Go? { SoleOwner(s, t, c, step.t); }
  }

  lemma SameStepsLeft(m: Shared, m': Shared, pc: Pc, c: nat)
    requires c in m.heap && c in m'.heap && m'.heap[c].cfg == m.heap[c].cfg && m'.heap[c].done == m.heap[c].done
             && Owns(pc, c)
    ensures Closes(m', pc) == Closes(m, pc) && StepsLeft(m', pc) == StepsLeft(m, pc)
  {}

  lemma OtherThreads(s: Sys, step: Step, t: nat)
    requires Enabled(s, step) && t in s.threads && (step.Go? ==> step.t != t)
    ensures t in Next(s, step).threads && Next(s, step).threads[t] == s.threads[t]
  {}

  function StepsOf(steps: seq<Step>, t: nat): nat {
    if steps == [] then 0
    else (if steps[0].Go? && steps[0].t == t then 1 else 0) + StepsOf(steps[1..], t)
  }

  /** Whatever the others do, a signal is closed once its goroutine has taken the steps it has left. */
  lemma {:induction false} WakeUpWithin(s: Sys, steps: seq<Step>, t: nat, d: nat)
    requires Inv(s) && CanRun(s, steps) && t in s.threads && Closes(s.m, s.threads[t]) == Some(d)
    requires StepsOf(steps, t) >= StepsLeft(s.m, s.threads[t])
    ensures d in End(s, steps).m.closed
    decreases |steps|
  {
    CloserCanGo(s, t, ReconnectConfig(true, 0));
    var step := steps[0];
    var s' := Next(s, step);
    InvStep(s, step);
    if step.Go? && step.t == t {
      CloserProgress(s, t, step.ok, step.cfg, d);
    } else {
      OthersKeepCloser(s, step, t, d);
    }
    if d in s'.m.closed {
      ClosedAtMostOnce(s', steps[1..], d);
    } else {
      WakeUpWithin(s', steps[1..], t, d);
    }
  }

  /** Goroutine t alone is going to close the signal, is free to move, and closes it in time in every run. */
  ghost predicate ClosesSoon(s: Sys, t: nat, d: nat) {
    && t in s.threads && Closes(s.m, s.threads[t]) == Some(d) && CanGo(s, s.threads[t], true)
    && (forall u :: u in s.threads && u != t ==> Closes(s.m, s.threads[u]) != Some(d))
    && (forall steps :: CanRun(s, steps) && StepsOf(steps, t) >= StepsLeft(s.m, s.threads[t]) ==> d in End(s, steps).m.closed)
  }

  /**
   No lost wake-up: a waiter in ConnectOrReuse waits for a signal that is already closed, or that
   exactly one goroutine is going to close; that goroutine is never blocked, and needs at most
   three steps a dial and four more.
   */
  lemma NoLostWakeUp(s: Sys, w: nat, d: nat)
    requires Inv(s) && w in s.threads
    requires (s.threads[w].AwaitingDone? && s.threads[w].done == d) || (s.threads[w].AwaitingGate?
             && s.threads[w].gate == d)
    requires d !in s.m.closed
    ensures exists t :: ClosesSoon(s, t, d)
  {
    assert WaitOk(s, s.threads[w]);
    var t :| t in s.threads && Closes(s.m, s.threads[t]) == Some(d);
    CloserCanGo(s, t, ReconnectConfig(true, 0));
    forall steps | CanRun(s, steps) && StepsOf(steps, t) >= StepsLeft(s.m, s.threads[t])
      ensures d in End(s, steps).m.closed
    {
      WakeUpWithin(s, steps, t, d);
    }
    forall u | u in s.threads && u != t
      ensures Closes(s.m, s.threads[u]) != Some(d)
    {
      SoleCloser(s, t, u);
    }
    assert ClosesSoon(s, t, d);
  }

  /** An outage dials at most MaxRetries times. */
  lemma OutageDialsBounded(s: Sys, t: nat, c: nat)
    requires Inv(s) && t in s.threads && Owns(s.threads[t], c) && !s.threads[t].Retrying?
    ensures c in s.m.heap && s.m.heap[c].dials <= Budget(s.m, c)
    ensures s.threads[t].Redialing? ==> s.m.heap[c].dials < Budget(s.m, c)
  {
    CoreAt(s, t);
  }
}
