/**
 What holds over whole runs of the connection manager, whatever the interleaving.
 */
module SessionRuns {
  import opened SessionState
  import opened SessionSteps
  import opened SessionInvariants
  import opened SessionPreserve
  import opened SessionSafety
  import opened SessionRefs

  /** The steps can be taken one after the other, and every manual retry waits until its connection is idle. */
  predicate CanRun(s: Sys, steps: seq<Step>)
    decreases |steps|
  {
    steps == [] ||
    (Enabled(s, steps[0]) && Disciplined(s, steps[0]) && CanRun(Next(s, steps[0]), steps[1..]))
  }

  function End(s: Sys, steps: seq<Step>): Sys
    requires CanRun(s, steps)
    decreases |steps|
  {
    if steps == [] then s else End(Next(s, steps[0]), steps[1..])
  }

  lemma Prepend(s: Sys, step: Step, steps: seq<Step>)
    requires Enabled(s, step) && Disciplined(s, step) && CanRun(Next(s, step), steps)
    ensures CanRun(s, [step] + steps) && End(s, [step] + steps) == End(Next(s, step), steps)
  {
    assert ([step] + steps)[1..] == steps;
  }

  lemma {:induction false} Append(s: Sys, first: seq<Step>, second: seq<Step>)
    requires CanRun(s, first) && CanRun(End(s, first), second)
    ensures CanRun(s, first + second) && End(s, first + second) == End(End(s, first), second)
    decreases |first|
  {
    if first == [] {
      assert first + second == second;
    } else {
      Append(Next(s, first[0]), first[1..], second);
      assert (first + second)[1..] == first[1..] + second;
    }
  }

  /** Some run of the manager ends here. */
  ghost predicate Reachable(s: Sys) {
    exists steps :: CanRun(START, steps) && End(START, steps) == s
  }

  lemma ReachStart()
    ensures Reachable(START)
  {
    assert CanRun(START, []) && End(START, []) == START;
  }

  lemma ReachStep(s: Sys, step: Step)
    requires Reachable(s) && Enabled(s, step) && Disciplined(s, step)
    ensures Reachable(Next(s, step))
  {
    var steps :| CanRun(START, steps) && End(START, steps) == s;
    hide Enabled, Disciplined, Next;
    assert CanRun(Next(s, step), []) && End(Next(s, step), []) == Next(s, step);
    Prepend(s, step, []);
    Append(START, steps, [step] + []);
  }

  lemma ReachInv(s: Sys)
    requires Reachable(s)
    ensures Inv(s)
  {
    var steps :| CanRun(START, steps) && End(START, steps) == s;
    InvStart();
    InvRun(START, steps);
  }

  // ----- the invariant over runs -----

  lemma InvStart()
    ensures Inv(START)
  {}

  lemma InvStep(s: Sys, step: Step)
    requires Inv(s) && Enabled(s, step) && Disciplined(s, step)
    ensures Inv(Next(s, step))
  {
    CoreStep(s, step);
    RefsStep(s, step);
  }

  lemma {:induction false} InvRun(s: Sys, steps: seq<Step>)
    requires Inv(s) && CanRun(s, steps)
    ensures Inv(End(s, steps))
    decreases |steps|
  {
    if steps != [] {
      InvStep(s, steps[0]);
      InvRun(Next(s, steps[0]), steps[1..]);
    }
  }

  // ----- deaths -----

  /** The step is a markDead call on c that takes effect. */
  predicate KillsConn(s: Sys, step: Step, c: nat) {
    && step.Go? && step.ok && step.t in s.threads && s.threads[step.t].Watching? && s.threads[step.t].conn == c
    && c in s.m.heap && Kills(s.m, c, s.threads[step.t].gen)
  }

  function DeathsIn(s: Sys, steps: seq<Step>, c: nat): nat
    requires CanRun(s, steps)
    decreases |steps|
  {
    if steps == [] then 0
    else (if KillsConn(s, steps[0], c) then 1 else 0) + DeathsIn(Next(s, steps[0]), steps[1..], c)
  }

  function DeathLog(m: Shared, c: nat): seq<nat> {
    if c in m.heap then m.heap[c].deaths else []
  }

  lemma DeathLogStep(s: Sys, step: Step, c: nat)
    requires Inv(s) && Enabled(s, step)
    ensures DeathLog(Next(s, step).m, c) ==
      DeathLog(s.m, c) + if KillsConn(s, step, c) then [s.threads[step.t].gen] else []
  {
    hide Inv, Core;
    InvMaps(s);
    if step.Go? {
      DeathLogGo(s, step.t, step.ok, step.cfg, c);
    } else {
      assert DeathLog(Next(s, step).m, c) == DeathLog(s.m, c);
    }
  }

  lemma InvMaps(s: Sys)
    requires Inv(s)
    ensures s.m.nextId !in s.m.heap
    ensures LOCAL in s.m.heap ==> LOCAL in s.m.connections
  {}

  lemma DeathLogConnect(s: Sys, t: nat, ok: bool, cfg: ReconnectConfig, c: nat)
    requires s.m.nextId !in s.m.heap && t in s.threads && CanGo(s, s.threads[t], ok) && InConnect(s.threads[t])
    ensures DeathLog(AdvanceConnect(s, t, ok, cfg).m, c) == DeathLog(s.m, c)
  {}

  lemma DeathLogOutage(s: Sys, t: nat, ok: bool, c: nat)
    requires t in s.threads && CanGo(s, s.threads[t], ok) && InOutage(s.threads[t])
    ensures DeathLog(AdvanceOutage(s, t, ok).m, c) ==
      DeathLog(s.m, c) + if ok && KillsConn(s, Go(t, ok, ReconnectConfig(true, 0)), c) then [s.threads[t].gen] else []
  {}

  lemma DeathLogChannel(s: Sys, t: nat, ok: bool, c: nat)
    requires t in s.threads && CanGo(s, s.threads[t], ok) && !InConnect(s.threads[t]) && !InOutage(s.threads[t])
    ensures DeathLog(AdvanceChannel(s, t, ok).m, c) == DeathLog(s.m, c)
  {}

  lemma DeathLogGo(s: Sys, t: nat, ok: bool, cfg: ReconnectConfig, c: nat)
    requires s.m.nextId !in s.m.heap && t in s.threads && CanGo(s, s.threads[t], ok)
    ensures DeathLog(Advance(s, t, ok, cfg).m, c) ==
      DeathLog(s.m, c) + if KillsConn(s, Go(t, ok, cfg), c) then [s.threads[t].gen] else []
  {
    hide AdvanceConnect, AdvanceOutage, AdvanceChannel, DeathLog, CanGo;
    if InConnect(s.threads[t]) {
      DeathLogConnect(s, t, ok, cfg, c);
    } else if InOutage(s.threads[t]) {
      DeathLogOutage(s, t, ok, c);
    } else {
      DeathLogChannel(s, t, ok, c);
    }
  }

  lemma {:induction false} DeathLogRun(s: Sys, steps: seq<Step>, c: nat)
    requires Inv(s) && CanRun(s, steps)
    ensures |DeathLog(End(s, steps).m, c)| == |DeathLog(s.m, c)| + DeathsIn(s, steps, c)
    ensures DeathLog(s.m, c) <= DeathLog(End(s, steps).m, c)
    decreases |steps|
  {
    if steps != [] {
      DeathLogStep(s, steps[0], c);
      InvStep(s, steps[0]);
      DeathLogRun(Next(s, steps[0]), steps[1..], c);
    }
  }

  /**
   Over every run, the markDead calls that took effect on a connection number its generation, plus
   one if it is not up; they killed generations 0, 1, 2, ... once each, in this order.
   */
  lemma EachGenerationDiesOnce(steps: seq<Step>, c: nat)
    requires CanRun(START, steps) && c in End(START, steps).m.heap
    ensures var k := End(START, steps).m.heap[c];
      && DeathsIn(START, steps, c) == k.generation + (if k.phase == Connected then 0 else 1)
      && forall n :: 0 <= n < |k.deaths| ==> k.deaths[n] == n
  {
    InvStart();
    InvRun(START, steps);
    DeathLogRun(START, steps, c);
  }

  /** A generation in the log of deaths is not one that markDead accepts. */
  lemma DiedBefore(s: Sys, c: nat, n: nat)
    requires Inv(s) && c in s.m.heap && n < |s.m.heap[c].deaths|
    ensures s.m.heap[c].deaths[n] == n && !Kills(s.m, c, n)
  {}

  lemma StaleStep(s: Sys, t: nat, c: nat, gen: nat, ok: bool, cfg: ReconnectConfig)
    requires t in s.threads && s.threads[t] == Watching(c, gen) && c in s.m.heap && !Kills(s.m, c, gen)
    ensures Advance(s, t, ok, cfg).m == s.m
  {}

  /**
   A goroutine that started in a generation that has died cannot change the shared state, however
   much later it calls markDead.
   */
  lemma StaleGoroutineIsHarmless(s: Sys, steps: seq<Step>, t: nat, c: nat, gen: nat, ok: bool, cfg: ReconnectConfig)
    requires Inv(s) && gen in DeathLog(s.m, c)
    requires CanRun(s, steps)
    requires var s' := End(s, steps); t in s'.threads && s'.threads[t] == Watching(c, gen) && c in s'.m.heap
    ensures Advance(End(s, steps), t, ok, cfg).m == End(s, steps).m
  {
    InvRun(s, steps);
    DeathLogRun(s, steps, c);
    var s' := End(s, steps);
    var n :| 0 <= n < |DeathLog(s.m, c)| && DeathLog(s.m, c)[n] == gen;
    hide CanRun, End;
    DiedBefore(s', c, n);
    hide Inv, DeathLog;
    StaleStep(s', t, c, gen, ok, cfg);
  }

  // ----- outages -----

  /** While a connection is reconnecting exactly one goroutine runs its outage; while it is up, none does. */
  lemma OneOwner(s: Sys, c: nat)
    requires Inv(s) && c in s.m.heap
    ensures s.m.heap[c].phase == Reconnecting ==>
      exists t :: t in s.threads && Owns(s.threads[t], c) && forall u :: u in s.threads && u != t ==> !Owns(s.threads[u], c)
    ensures s.m.heap[c].phase == Connected ==> Idle(s, c)
  {
    assert OutageOk(s, c);
    if s.m.heap[c].phase == Reconnecting {
      var t :| t in s.threads && Owns(s.threads[t], c);
      forall u | u in s.threads && u != t
        ensures !Owns(s.threads[u], c)
      {
        SoleOwner(s, t, c, u);
      }
    } else if s.m.heap[c].phase == Connected {
      forall u | u in s.threads
        ensures !Owns(s.threads[u], c)
      {
        assert PcOk(s.m, s.threads[u]);
      }
    }
  }
}
