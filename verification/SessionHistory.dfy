/**
 Why a goroutine is where it is: in any run, what it saw before it dropped or tore down a connection,
 dialled, or came back with nothing.
 */
module SessionHistory {
  import opened Wrappers
  import opened SessionState
  import opened SessionSteps
  import opened SessionInvariants
  import opened SessionPreserve
  import opened SessionSafety
  import opened SessionRuns
  import opened SessionTheorems
  import opened SessionLiveness
  import opened SessionIndex

  // ----- looking back -----

  /** The step starts goroutine t or is one of its own. */
  predicate Of(step: Step, t: nat) {
    !step.Cancel? && step.t == t
  }

  lemma {:induction false} RunSnoc(s: Sys, steps: seq<Step>)
    requires CanRun(s, steps) && steps != []
    ensures var n := |steps| - 1;
      && CanRun(s, steps[..n]) && Enabled(End(s, steps[..n]), steps[n]) && Disciplined(End(s, steps[..n]), steps[n])
      && End(s, steps) == Next(End(s, steps[..n]), steps[n])
    decreases |steps|
  {
    hide Enabled, Disciplined, Next;
    var n := |steps| - 1;
    if n == 0 {
      assert steps[..0] == [] && steps[1..] == [];
    } else {
      RunSnoc(Next(s, steps[0]), steps[1..]);
      assert steps[1..][..n - 1] == steps[..n][1..] && steps[..n][0] == steps[0];
    }
  }

  lemma OthersStand(s: Sys, step: Step, t: nat)
    requires Enabled(s, step) && !Of(step, t)
    ensures t in Next(s, step).threads <==> t in s.threads
    ensures t in s.threads ==> Next(s, step).threads[t] == s.threads[t]
  {}

  /** The last step of goroutine t in a run brought it where it is. */
  lemma {:induction false} LastOwn(s: Sys, steps: seq<Step>, t: nat) returns (k: nat)
    requires CanRun(s, steps) && t !in s.threads && t in End(s, steps).threads
    ensures k < |steps| && CanRun(s, steps[..k])
    ensures var was := End(s, steps[..k]);
      && Enabled(was, steps[k]) && Of(steps[k], t)
      && t in Next(was, steps[k]).threads && Next(was, steps[k]).threads[t] == End(s, steps).threads[t]
    decreases |steps|
  {
    assert steps != [];
    var n := |steps| - 1;
    RunSnoc(s, steps);
    if Of(steps[n], t) {
      k := n;
    } else {
      OthersStand(End(s, steps[..n]), steps[n], t);
      hide Enabled, Next, Of;
      k := LastOwn(s, steps[..n], t);
      assert steps[..n][..k] == steps[..k] && steps[..n][k] == steps[k];
    }
  }

  /** The same before the k-th step. */
  lemma LastOwnBefore(steps: seq<Step>, k: nat, t: nat) returns (j: nat)
    requires k <= |steps| && CanRun(START, steps[..k]) && t in End(START, steps[..k]).threads
    ensures j < k && CanRun(START, steps[..j])
    ensures var was := End(START, steps[..j]);
      && Enabled(was, steps[j]) && Of(steps[j], t)
      && t in Next(was, steps[j]).threads && Next(was, steps[j]).threads[t] == End(START, steps[..k]).threads[t]
  {
    hide Enabled, Next, CanRun, Of;
    j := LastOwn(START, steps[..k], t);
    assert steps[..k][..j] == steps[..j] && steps[..k][j] == steps[j];
  }

  lemma BeforeDropping(s: Sys, step: Step, t: nat, i: Ident, c: nat)
    requires Enabled(s, step) && Of(step, t) && t in Next(s, step).threads && Next(s, step).threads[t] == Dropping(i, c)
    ensures step.Go? && t in s.threads && c in s.m.heap && s.m.heap[c].phase != Connected
    ensures s.threads[t] == Rechecking(i, c) || (s.threads[t] == Looking(i) && i in s.m.connByIdent && s.m.connByIdent[i] == c)
  {}

  /** In any run a caller drops only a connection that it has just seen not to be up. */
  lemma DroppedWasDown(steps: seq<Step>, t: nat, i: Ident, c: nat) returns (k: nat)
    requires CanRun(START, steps) && t in End(START, steps).threads && End(START, steps).threads[t] == Dropping(i, c)
    ensures k < |steps| && steps[k].Go? && steps[k].t == t && CanRun(START, steps[..k])
    ensures var was := End(START, steps[..k]);
      && t in was.threads && c in was.m.heap && was.m.heap[c].phase != Connected
      && (was.threads[t] == Rechecking(i, c) ||
          (was.threads[t] == Looking(i) && i in was.m.connByIdent && was.m.connByIdent[i] == c))
  {
    k := LastOwn(START, steps, t);
    BeforeDropping(End(START, steps[..k]), steps[k], t, i, c);
    hide Enabled, Next, CanRun;
  }

  lemma BeforeTearing(s: Sys, step: Step, t: nat, c: nat)
    requires Enabled(s, step) && Of(step, t) && t in Next(s, step).threads && Next(s, step).threads[t] == TearingDown(c)
    ensures step.Go? && t in s.threads && c in s.m.heap
    ensures s.threads[t] == ClosingDone(c, true) || (s.threads[t] == Decrementing(c) && LastRef(s.m, c))
  {}

  lemma BeforeClosing(s: Sys, step: Step, t: nat, c: nat, tear: bool)
    requires Enabled(s, step) && Of(step, t) && t in Next(s, step).threads
             && Next(s, step).threads[t] == ClosingDone(c, tear)
    ensures t in s.threads && s.threads[t] == Failing(c, tear)
  {}

  lemma BeforeFailing(s: Sys, step: Step, t: nat, c: nat)
    requires Enabled(s, step) && Of(step, t) && t in Next(s, step).threads && Next(s, step).threads[t] == Failing(c, true)
    ensures step.Go? && t in s.threads && s.threads[t].Looping? && s.threads[t].conn == c && c in s.m.heap
    ensures s.threads[t].attempt < s.m.heap[c].cfg.maxRetries && !HasChannels(s.m, c)
  {}

  /** Goroutine t has found that nobody uses the connection: its last reference is gone, or no channel was left in a turn. */
  predicate FoundUnused(s: Sys, t: nat, c: nat) {
    && t in s.threads && c in s.m.heap
    && match s.threads[t]
       case Decrementing(c') => c' == c && LastRef(s.m, c)
       case Looping(c', a) => c' == c && a < s.m.heap[c].cfg.maxRetries && !HasChannels(s.m, c)
       case _ => false
  }

  /** In any run a goroutine tears down only a connection that it has found unused. */
  lemma TornDownWasUnused(steps: seq<Step>, t: nat, c: nat) returns (k: nat)
    requires CanRun(START, steps) && t in End(START, steps).threads && End(START, steps).threads[t] == TearingDown(c)
    ensures k < |steps| && steps[k].Go? && steps[k].t == t && CanRun(START, steps[..k])
    ensures FoundUnused(End(START, steps[..k]), t, c)
  {
    hide Enabled, Next, CanRun, LastRef, HasChannels;
    k := LastOwn(START, steps, t);
    BeforeTearing(End(START, steps[..k]), steps[k], t, c);
    if End(START, steps[..k]).threads[t] == ClosingDone(c, true) {
      k := GaveUpUnused(steps, k, t, c);
    }
  }

  lemma GaveUpUnused(steps: seq<Step>, n: nat, t: nat, c: nat) returns (k: nat)
    requires n <= |steps| && CanRun(START, steps[..n]) && t in End(START, steps[..n]).threads
    requires End(START, steps[..n]).threads[t] == ClosingDone(c, true)
    ensures k < n && steps[k].Go? && steps[k].t == t && CanRun(START, steps[..k])
    ensures FoundUnused(End(START, steps[..k]), t, c)
  {
    hide Enabled, Next, CanRun, LastRef, HasChannels;
    var j := LastOwnBefore(steps, n, t);
    BeforeClosing(End(START, steps[..j]), steps[j], t, c, true);
    k := LastOwnBefore(steps, j, t);
    BeforeFailing(End(START, steps[..k]), steps[k], t, c);
  }

  lemma BeforeDialling(s: Sys, step: Step, t: nat, c: nat, a: nat)
    requires Enabled(s, step) && Of(step, t) && t in Next(s, step).threads && Next(s, step).threads[t] == Redialing(c, a)
    ensures t in s.threads && s.threads[t] == Sleeping(c, a)
  {}

  lemma BeforeSleeping(s: Sys, step: Step, t: nat, c: nat, a: nat)
    requires Enabled(s, step) && Of(step, t) && t in Next(s, step).threads && Next(s, step).threads[t] == Sleeping(c, a)
    ensures step.Go? && t in s.threads && s.threads[t] == Looping(c, a) && c in s.m.heap
    ensures a < s.m.heap[c].cfg.maxRetries && HasChannels(s.m, c)
  {}

  /** In any run the loop dials only after a turn at which it found a channel on the connection and had turns left. */
  lemma DialsHadChannels(steps: seq<Step>, t: nat, c: nat, a: nat) returns (k: nat)
    requires CanRun(START, steps) && t in End(START, steps).threads && End(START, steps).threads[t] == Redialing(c, a)
    ensures k < |steps| && steps[k].Go? && steps[k].t == t && CanRun(START, steps[..k])
    ensures var was := End(START, steps[..k]);
      && t in was.threads && was.threads[t] == Looping(c, a) && c in was.m.heap
      && a < was.m.heap[c].cfg.maxRetries && HasChannels(was.m, c)
  {
    var j := LastOwn(START, steps, t);
    BeforeDialling(End(START, steps[..j]), steps[j], t, c, a);
    hide Enabled, Next, CanRun;
    k := LastOwnBefore(steps, j, t);
    BeforeSleeping(End(START, steps[..k]), steps[k], t, c, a);
  }

  /** What makes a caller come back with nothing: the program shuts down, the dial it waited for left nothing, or its own failed. */
  predicate ComesToNothing(s: Sys, t: nat, ok: bool, i: Ident) {
    && t in s.threads
    && match s.threads[t]
       case AwaitingDone(i', _, _) => i' == i && !ok && s.cancelled
       case PastGate(i') => i' == i && i !in s.m.connByIdent
       case Dialing(i', _) => i' == i && !ok
       case _ => false
  }

  lemma BeforeNothing(s: Sys, step: Step, t: nat, i: Ident)
    requires Enabled(s, step) && Of(step, t) && t in Next(s, step).threads && Next(s, step).threads[t] == Returned(i, None)
    ensures step.Go? && t in s.threads
    ensures ComesToNothing(s, t, step.ok, i) || (s.threads[t].OpeningGate? && s.threads[t].ident == i && s.threads[t].result == None)
  {}

  lemma BeforeGate(s: Sys, step: Step, t: nat, i: Ident, g: nat)
    requires Enabled(s, step) && Of(step, t) && t in Next(s, step).threads && Next(s, step).threads[t] == OpeningGate(i, g, None)
    ensures t in s.threads && s.threads[t] == DialFailed(i, g)
  {}

  lemma BeforeFailed(s: Sys, step: Step, t: nat, i: Ident, g: nat)
    requires Enabled(s, step) && Of(step, t) && t in Next(s, step).threads && Next(s, step).threads[t] == DialFailed(i, g)
    ensures step.Go? && t in s.threads && s.threads[t] == Dialing(i, g) && !step.ok
  {}

  /** In any run a call of ConnectOrReuse fails only for one of these reasons. */
  lemma NothingHasAReason(steps: seq<Step>, t: nat, i: Ident) returns (k: nat)
    requires CanRun(START, steps) && t in End(START, steps).threads && End(START, steps).threads[t] == Returned(i, None)
    ensures k < |steps| && steps[k].Go? && steps[k].t == t && CanRun(START, steps[..k])
    ensures ComesToNothing(End(START, steps[..k]), t, steps[k].ok, i)
  {
    hide Enabled, Next, CanRun, End, ComesToNothing;
    k := LastOwn(START, steps, t);
    BeforeNothing(End(START, steps[..k]), steps[k], t, i);
    if !ComesToNothing(End(START, steps[..k]), t, steps[k].ok, i) {
      k := DialHadFailed(steps, k, t, i);
    }
  }

  lemma DialHadFailed(steps: seq<Step>, n: nat, t: nat, i: Ident) returns (k: nat)
    requires n <= |steps| && CanRun(START, steps[..n]) && t in End(START, steps[..n]).threads
    requires var pc := End(START, steps[..n]).threads[t]; pc.OpeningGate? && pc.ident == i && pc.result == None
    ensures k < n && steps[k].Go? && steps[k].t == t && CanRun(START, steps[..k])
    ensures ComesToNothing(End(START, steps[..k]), t, steps[k].ok, i)
  {
    hide Enabled, Next, CanRun, End;
    var g := End(START, steps[..n]).threads[t].gate;
    var j := LastOwnBefore(steps, n, t);
    BeforeGate(End(START, steps[..j]), steps[j], t, i, g);
    k := LastOwnBefore(steps, j, t);
    BeforeFailed(End(START, steps[..k]), steps[k], t, i, g);
  }

  lemma BeforeDone(s: Sys, step: Step, t: nat, i: Ident, g: nat, cfg: ReconnectConfig)
    requires Enabled(s, step) && Of(step, t) && t in Next(s, step).threads && Next(s, step).threads[t] == DialDone(i, g, cfg)
    ensures step == Go(t, true, cfg) && t in s.threads && s.threads[t] == Dialing(i, g)
  {}

  /** In any run a caller registers a connection only after its own dial succeeded, with the settings of that dial. */
  lemma RegisteredWasDialled(steps: seq<Step>, t: nat, i: Ident, g: nat, cfg: ReconnectConfig) returns (k: nat)
    requires CanRun(START, steps) && t in End(START, steps).threads && End(START, steps).threads[t] == DialDone(i, g, cfg)
    ensures k < |steps| && steps[k] == Go(t, true, cfg) && CanRun(START, steps[..k])
    ensures t in End(START, steps[..k]).threads && End(START, steps[..k]).threads[t] == Dialing(i, g)
  {
    k := LastOwn(START, steps, t);
    BeforeDone(End(START, steps[..k]), steps[k], t, i, g, cfg);
    hide Enabled, Next, CanRun;
  }

  /** A connection leaves the manager only by being dropped or torn down. */
  lemma LeavesOnlyBy(s: Sys, step: Step, c: nat)
    requires Enabled(s, step) && c in s.m.connections && c !in Next(s, step).m.connections
    ensures step.Go? && (s.threads[step.t] == TearingDown(c) || (s.threads[step.t].Dropping? && s.threads[step.t].conn == c))
  {
    hide CanGo, HasChannels, Kills, LastRef, AdvanceConnect, AdvanceOutage, AdvanceChannel;
    if step.Go? {
      var pc := s.threads[step.t];
      if InConnect(pc) {
        if !(pc.Dropping? && pc.conn == c) { StaysInConnect(s, step.t, step.ok, step.cfg, c); }
      } else if InOutage(pc) {
        StaysInOutage(s, step.t, step.ok, c);
      } else if pc != TearingDown(c) {
        StaysInChannel(s, step.t, step.ok, c);
      }
    }
  }

  lemma StaysInConnect(s: Sys, t: nat, ok: bool, cfg: ReconnectConfig, c: nat)
    requires t in s.threads && CanGo(s, s.threads[t], ok) && InConnect(s.threads[t])
    requires c in s.m.connections && !(s.threads[t].Dropping? && s.threads[t].conn == c)
    ensures c in AdvanceConnect(s, t, ok, cfg).m.connections
  {}

  lemma StaysInOutage(s: Sys, t: nat, ok: bool, c: nat)
    requires t in s.threads && CanGo(s, s.threads[t], ok) && InOutage(s.threads[t]) && c in s.m.connections
    ensures c in AdvanceOutage(s, t, ok).m.connections
  {
    hide HasChannels;
  }

  lemma StaysInChannel(s: Sys, t: nat, ok: bool, c: nat)
    requires t in s.threads && CanGo(s, s.threads[t], ok) && !InConnect(s.threads[t]) && !InOutage(s.threads[t])
    requires c in s.m.connections && s.threads[t] != TearingDown(c)
    ensures c in AdvanceChannel(s, t, ok).m.connections
  {}
}
