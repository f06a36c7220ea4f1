/**
 Reference counting: channelRefs against the channels that exist and the opens and closes under way.
 */
module SessionRefs {
  import opened Counting
  import opened SessionState
  import opened SessionSteps
  import opened SessionInvariants
  import opened SessionPreserve

  function Held(pc: Pc, c: nat): int {
    (if pc == Inserting(c) then 1 else 0) + (if pc == Decrementing(c) then 1 else 0)
  }

  /** How many holders of c the step adds. */
  ghost function Delta(s: Sys, t: nat, m': Shared, pc': Pc, c: nat): int {
    Count(m'.channels, c) - Count(s.m.channels, c) + Held(pc', c) - Held(At(s, t), c)
  }

  lemma HoldersTo(s: Sys, t: nat, m': Shared, pc': Pc, c: nat)
    ensures Holders(To(s, t, m', pc'), c) == Holders(s, c) + Delta(s, t, m', pc', c)
  {
    CountUpdate(s.threads, t, pc', Inserting(c));
    CountUpdate(s.threads, t, pc', Decrementing(c));
  }

  /** Nobody holds a connection that does not exist yet. */
  lemma NoHolders(s: Sys, c: nat)
    requires MapsOk(s.m) && PcsOk(s) && c !in s.m.heap
    ensures Holders(s, c) == 0
  {
    forall t | t in s.threads
      ensures s.threads[t] != Inserting(c) && s.threads[t] != Decrementing(c)
    {
      assert PcOk(s.m, s.threads[t]);
    }
    CountNone(s.m.channels, c);
    CountNone(s.threads, Inserting(c));
    CountNone(s.threads, Decrementing(c));
  }

  ghost predicate RefsCarried(s: Sys, t: nat, m': Shared, pc': Pc, c: nat)
    requires c in m'.heap
  {
    if c !in s.m.heap then
      m'.heap[c].refs == 0 && Delta(s, t, m', pc', c) == 0
    else if c in m'.connections then
      c in s.m.connections && m'.heap[c].refs == s.m.heap[c].refs + Delta(s, t, m', pc', c)
    else
      m'.heap[c].refs >= s.m.heap[c].refs + Delta(s, t, m', pc', c)
  }

  lemma RefsTo(s: Sys, t: nat, m': Shared, pc': Pc)
    requires MapsOk(s.m) && PcsOk(s) && RefsOk(s)
    requires forall c :: c in m'.heap ==> RefsCarried(s, t, m', pc', c)
    ensures RefsOk(To(s, t, m', pc'))
  {
    forall c | c in m'.heap
      ensures var s' := To(s, t, m', pc');
        m'.heap[c].refs >= Holders(s', c) && (c in m'.connections ==> m'.heap[c].refs == Holders(s', c))
    {
      assert RefsCarried(s, t, m', pc', c);
      HoldersTo(s, t, m', pc', c);
      if c !in s.m.heap { NoHolders(s, c); }
    }
  }

  /** A step that moves no holder, changes no count and registers only connections it makes. */
  lemma RefsQuiet(s: Sys, t: nat, m': Shared, pc': Pc)
    requires MapsOk(s.m) && PcsOk(s) && RefsOk(s)
    requires !At(s, t).Inserting? && !At(s, t).Decrementing? && !pc'.Inserting? && !pc'.Decrementing?
    requires m'.channels == s.m.channels
    requires forall c :: c in m'.heap ==>
      if c in s.m.heap then m'.heap[c].refs == s.m.heap[c].refs && (c in m'.connections ==> c in s.m.connections)
      else m'.heap[c].refs == 0
    ensures RefsOk(To(s, t, m', pc'))
  {
    forall c | c in m'.heap
      ensures RefsCarried(s, t, m', pc', c)
    {}
    RefsTo(s, t, m', pc');
  }

  lemma OpeningAt(s: Sys, t: nat, c: nat, c': nat)
    requires t in s.threads && s.threads[t] == Opening(c) && c in s.m.heap && c' in s.m.heap
    ensures RefsCarried(s, t, IncrRefs(s.m, c), Inserting(c), c')
  {
    hide Count;
  }

  lemma RefsOpening(s: Sys, t: nat, c: nat)
    requires MapsOk(s.m) && PcsOk(s) && RefsOk(s) && t in s.threads && s.threads[t] == Opening(c) && c in s.m.heap
    ensures RefsOk(To(s, t, IncrRefs(s.m, c), Inserting(c)))
  {
    hide RefsOk, MapsOk, PcsOk, RefsCarried;
    forall c' | c' in s.m.heap
      ensures RefsCarried(s, t, IncrRefs(s.m, c), Inserting(c), c')
    {
      OpeningAt(s, t, c, c');
    }
    RefsTo(s, t, IncrRefs(s.m, c), Inserting(c));
  }

  lemma InsertingAt(s: Sys, t: nat, c: nat, c': nat)
    requires t in s.threads && s.threads[t] == Inserting(c) && s.m.nextId !in s.m.channels && c' in s.m.heap
    ensures RefsCarried(s, t, InsertChannel(s.m, c), Stopped, c')
  {
    hide Count;
    CountUpdate(s.m.channels, s.m.nextId, c, c');
  }

  lemma RefsInserting(s: Sys, t: nat, c: nat)
    requires MapsOk(s.m) && PcsOk(s) && RefsOk(s) && t in s.threads && s.threads[t] == Inserting(c)
    ensures RefsOk(To(s, t, InsertChannel(s.m, c), Stopped))
  {
    assert s.m.nextId !in s.m.channels;
    hide RefsOk, MapsOk, PcsOk, RefsCarried;
    forall c' | c' in s.m.heap
      ensures RefsCarried(s, t, InsertChannel(s.m, c), Stopped, c')
    {
      InsertingAt(s, t, c, c');
    }
    RefsTo(s, t, InsertChannel(s.m, c), Stopped);
  }

  lemma DecrementingAt(s: Sys, t: nat, c: nat, pc': Pc, c': nat)
    requires t in s.threads && s.threads[t] == Decrementing(c) && c in s.m.heap && c' in s.m.heap
    requires pc' == TearingDown(c) || pc' == Stopped
    ensures RefsCarried(s, t, DecrRefs(s.m, c), pc', c')
  {
    hide Count;
  }

  lemma RefsDecrementing(s: Sys, t: nat, c: nat, pc': Pc)
    requires MapsOk(s.m) && PcsOk(s) && RefsOk(s) && t in s.threads && s.threads[t] == Decrementing(c) && c in s.m.heap
    requires pc' == TearingDown(c) || pc' == Stopped
    ensures RefsOk(To(s, t, DecrRefs(s.m, c), pc'))
  {
    hide RefsOk, MapsOk, PcsOk, RefsCarried;
    forall c' | c' in s.m.heap
      ensures RefsCarried(s, t, DecrRefs(s.m, c), pc', c')
    {
      DecrementingAt(s, t, c, pc', c');
    }
    RefsTo(s, t, DecrRefs(s.m, c), pc');
  }

  lemma RefsRemoving(s: Sys, t: nat, ch: nat)
    requires MapsOk(s.m) && PcsOk(s) && RefsOk(s) && t !in s.threads && ch in s.m.channels
    ensures RefsOk(Next(s, CloseChannel(t, ch)))
  {
    hide MapsOk, PcsOk, RefsOk, Count;
    var c := s.m.channels[ch];
    var pc' := if c in s.m.connections then Decrementing(c) else Stopped;
    forall c' | c' in s.m.heap
      ensures RefsCarried(s, t, RemoveChannel(s.m, ch), pc', c')
    {
      CountRemove(s.m.channels, ch, c');
    }
    RefsTo(s, t, RemoveChannel(s.m, ch), pc');
  }

  lemma RefsGo(s: Sys, t: nat, ok: bool, cfg: ReconnectConfig)
    requires MapsOk(s.m) && PcsOk(s) && RefsOk(s) && t in s.threads && CanGo(s, s.threads[t], ok)
    ensures RefsOk(Advance(s, t, ok, cfg))
  {
    hide MapsOk, PcsOk, RefsOk, Holders, CanGo, AdvanceConnect, AdvanceOutage, AdvanceChannel;
    if InConnect(s.threads[t]) {
      RefsConnect(s, t, ok, cfg);
    } else if InOutage(s.threads[t]) {
      RefsOutage(s, t, ok);
    } else {
      RefsChannel(s, t, ok);
    }
  }

  lemma RefsOutage(s: Sys, t: nat, ok: bool)
    requires MapsOk(s.m) && PcsOk(s) && RefsOk(s) && t in s.threads && CanGo(s, s.threads[t], ok)
             && InOutage(s.threads[t])
    ensures RefsOk(AdvanceOutage(s, t, ok))
  {
    hide MapsOk, PcsOk, RefsOk, Holders, HasChannels, Kills;
    var s' := AdvanceOutage(s, t, ok);
    RefsQuiet(s, t, s'.m, s'.threads[t]);
  }

  lemma RefsConnect(s: Sys, t: nat, ok: bool, cfg: ReconnectConfig)
    requires MapsOk(s.m) && PcsOk(s) && RefsOk(s) && t in s.threads && CanGo(s, s.threads[t], ok)
             && InConnect(s.threads[t])
    ensures RefsOk(AdvanceConnect(s, t, ok, cfg))
  {
    hide MapsOk, PcsOk, RefsOk, Holders;
    var s' := AdvanceConnect(s, t, ok, cfg);
    if s.threads[t].DialDone? {
      RefsPublish(s, t, s.threads[t].ident, s.threads[t].cfg, s'.threads[t]);
    } else if !s.threads[t].Returned? {
      RefsQuiet(s, t, s'.m, s'.threads[t]);
    }
  }

  lemma RefsChannel(s: Sys, t: nat, ok: bool)
    requires MapsOk(s.m) && PcsOk(s) && RefsOk(s) && t in s.threads && CanGo(s, s.threads[t], ok)
    requires !InConnect(s.threads[t]) && !InOutage(s.threads[t])
    ensures RefsOk(AdvanceChannel(s, t, ok))
  {
    hide MapsOk, PcsOk, RefsOk, Holders;
    var s' := AdvanceChannel(s, t, ok);
    match s.threads[t]
    case Opening(c) => if ok { RefsOpening(s, t, c); } else { RefsQuiet(s, t, s.m, Stopped); }
    case Inserting(c) => RefsInserting(s, t, c);
    case Decrementing(c) => RefsDecrementing(s, t, c, s'.threads[t]);
    case TearingDown(c) => RefsQuiet(s, t, s'.m, Stopped);
    case Stopped =>
  }

  lemma RefsPublish(s: Sys, t: nat, i: Ident, cfg: ReconnectConfig, pc': Pc)
    requires MapsOk(s.m) && PcsOk(s) && RefsOk(s) && t in s.threads && s.threads[t].DialDone? && pc'.OpeningGate?
    ensures RefsOk(To(s, t, Publish(s.m, i, cfg), pc'))
  {
    assert s.m.nextId !in s.m.heap;
    RefsQuiet(s, t, Publish(s.m, i, cfg), pc');
  }

  lemma RefsLocal(s: Sys, t: nat)
    requires MapsOk(s.m) && PcsOk(s) && RefsOk(s) && t !in s.threads
    ensures RefsOk(To(s, t, EnsureLocal(s.m), Opening(LOCAL)))
  {
    RefsQuiet(s, t, EnsureLocal(s.m), Opening(LOCAL));
  }

  lemma RefsStep(s: Sys, step: Step)
    requires MapsOk(s.m) && PcsOk(s) && RefsOk(s) && Enabled(s, step)
    ensures RefsOk(Next(s, step))
  {
    match step
    case Cancel =>
      assert forall c :: Holders(Next(s, step), c) == Holders(s, c);
    case Go(t, ok, cfg) => RefsGo(s, t, ok, cfg);
    case CloseChannel(t, ch) => RefsRemoving(s, t, ch);
    case OpenLocal(t) => RefsLocal(s, t);
    case Connect(t, i) => RefsQuiet(s, t, s.m, Looking(i));
    case Observe(t, c) => RefsQuiet(s, t, s.m, Watching(c, s.m.heap[c].generation));
    case Retry(t, c) => RefsQuiet(s, t, s.m, Retrying(c));
    case Open(t, c) => RefsQuiet(s, t, s.m, Opening(c));
  }
}
