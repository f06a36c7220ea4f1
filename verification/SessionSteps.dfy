/**
 The connection manager as a step machine: goroutines interleave, one critical section (or one
 receive, close or dial) at a time.  A program counter says what the goroutine does next and
 carries its local variables.
 */
module SessionSteps {
  import opened Wrappers
  import opened SessionState

  datatype Pc =
    // ConnectOrReuse
    | Looking(ident: Ident)
    | AwaitingDone(ident: Ident, conn: nat, done: nat)
    | Rechecking(ident: Ident, conn: nat)
    | Dropping(ident: Ident, conn: nat)
    | AwaitingGate(ident: Ident, gate: nat)
    | PastGate(ident: Ident)
    | Dialing(ident: Ident, gate: nat)
    | DialFailed(ident: Ident, gate: nat)
    | DialDone(ident: Ident, gate: nat, cfg: ReconnectConfig)
    | OpeningGate(ident: Ident, gate: nat, result: Option<nat>)
    | Returned(ident: Ident, result: Option<nat>)
    // A keep-alive goroutine, output reader or writer that remembers a generation
    | Watching(conn: nat, gen: nat)
    // The outage: markDead's tail and reconnectLoop
    | Died(conn: nat)
    | Looping(conn: nat, attempt: nat)
    | Sleeping(conn: nat, attempt: nat)
    | Redialing(conn: nat, attempt: nat)
    | Reviving(conn: nat)
    | ClosingOld(done: nat)
    | Failing(conn: nat, tear: bool)
    | ClosingDone(conn: nat, tear: bool)
    | Retrying(conn: nat)
    // Channels
    | Opening(conn: nat)
    | Inserting(conn: nat)
    | Decrementing(conn: nat)
    | TearingDown(conn: nat)
    | Stopped

  datatype Sys = Sys(m: Shared, threads: map<nat, Pc>, cancelled: bool)

  /** `Go(t, ok)` lets goroutine t take its next step; `ok` picks the outcome where there are two. */
  datatype Step =
    | Connect(t: nat, ident: Ident)
    | Observe(t: nat, conn: nat)
    | Retry(t: nat, conn: nat)
    | Open(t: nat, conn: nat)
    | OpenLocal(t: nat)
    | CloseChannel(t: nat, channel: nat)
    | Cancel
    | Go(t: nat, ok: bool, cfg: ReconnectConfig)

  const START := Sys(INIT, map[], false)

  predicate Enabled(s: Sys, step: Step) {
    match step
    case Connect(t, _) => t !in s.threads
    case Observe(t, c) => t !in s.threads && c in s.m.heap && c != LOCAL
    case Retry(t, c) => t !in s.threads && c in s.m.connections && c in s.m.heap && s.m.heap[c].phase == Failed
    case Open(t, c) => t !in s.threads && c in s.m.connections && c in s.m.heap && c != LOCAL
    case OpenLocal(t) => t !in s.threads
    case CloseChannel(t, ch) => t !in s.threads && ch in s.m.channels
    case Cancel => true
    case Go(t, ok, _) => t in s.threads && CanGo(s, s.threads[t], ok)
  }

  predicate CanGo(s: Sys, pc: Pc, ok: bool) {
    match pc
    case Looking(i) => i in s.m.connByIdent ==> s.m.connByIdent[i] in s.m.heap
    case AwaitingDone(_, _, d) => if ok then d in s.m.closed else s.cancelled
    case AwaitingGate(_, g) => g in s.m.closed
    case Sleeping(_, _) => ok || s.cancelled
    case Rechecking(_, c) => c in s.m.heap
    case Watching(c, _) => c in s.m.heap
    case Died(c) => c in s.m.heap
    case Looping(c, _) => c in s.m.heap
    case Redialing(c, _) => c in s.m.heap
    case Reviving(c) => c in s.m.heap
    case Failing(c, _) => c in s.m.heap
    case ClosingDone(c, _) => c in s.m.heap
    case Retrying(c) => c in s.m.heap
    case Opening(c) => c in s.m.heap
    case Decrementing(c) => c in s.m.heap
    case TearingDown(c) => c in s.m.heap
    case Returned(_, _) => false
    case Stopped => false
    case _ => true
  }

  /** The next state: goroutine t moves to `pc` and leaves the shared state as `m`. */
  function To(s: Sys, t: nat, m: Shared, pc: Pc): Sys {
    s.(m := m, threads := s.threads[t := pc])
  }

  function AfterLookup(i: Ident, found: Found): Pc {
    match found
    case Existing(c, Connected, _) => Returned(i, Some(c))
    case Existing(c, Reconnecting, d) => AwaitingDone(i, c, d)
    case Existing(c, Failed, _) => Dropping(i, c)
    case InFlight(g) => AwaitingGate(i, g)
    case MustDial(g) => Dialing(i, g)
  }

  function Next(s: Sys, step: Step): Sys
    requires Enabled(s, step)
  {
    match step
    case Connect(t, i) => To(s, t, s.m, Looking(i))
    case Observe(t, c) => To(s, t, s.m, Watching(c, s.m.heap[c].generation))
    case Retry(t, c) => To(s, t, s.m, Retrying(c))
    case Open(t, c) => To(s, t, s.m, Opening(c))
    case OpenLocal(t) => To(s, t, EnsureLocal(s.m), Opening(LOCAL))
    case CloseChannel(t, ch) =>
      var c := s.m.channels[ch];
      To(s, t, RemoveChannel(s.m, ch), if c in s.m.connections then Decrementing(c) else Stopped)
    case Cancel => s.(cancelled := true)
    case Go(t, ok, cfg) => Advance(s, t, ok, cfg)
  }

  function Advance(s: Sys, t: nat, ok: bool, cfg: ReconnectConfig): Sys
    requires t in s.threads && CanGo(s, s.threads[t], ok)
  {
    var pc := s.threads[t];
    if InConnect(pc) then AdvanceConnect(s, t, ok, cfg)
    else if InOutage(pc) then AdvanceOutage(s, t, ok)
    else AdvanceChannel(s, t, ok)
  }

  /** The goroutine is inside ConnectOrReuse. */
  predicate InConnect(pc: Pc) {
    || pc.Looking? || pc.AwaitingDone? || pc.Rechecking? || pc.Dropping? || pc.AwaitingGate? || pc.PastGate?
    || pc.Dialing? || pc.DialFailed? || pc.DialDone? || pc.OpeningGate? || pc.Returned?
  }

  /** The goroutine is inside markDead, reconnectLoop or RetryConnection. */
  predicate InOutage(pc: Pc) {
    || pc.Watching? || pc.Died? || pc.Looping? || pc.Sleeping? || pc.Redialing? || pc.Reviving?
    || pc.ClosingOld? || pc.Failing? || pc.ClosingDone? || pc.Retrying?
  }

  function AdvanceConnect(s: Sys, t: nat, ok: bool, cfg: ReconnectConfig): Sys
    requires t in s.threads && CanGo(s, s.threads[t], ok) && InConnect(s.threads[t])
  {
    match s.threads[t]
    case Looking(i) =>
      var (m, found) := Lookup(s.m, i);
      To(s, t, m, AfterLookup(i, found))
    case AwaitingDone(i, c, _) => To(s, t, s.m, if ok then Rechecking(i, c) else Returned(i, None))
    case Rechecking(i, c) =>
      To(s, t, s.m, if s.m.heap[c].phase == Connected then Returned(i, Some(c)) else Dropping(i, c))
    case Dropping(i, c) => To(s, t, Drop(s.m, i, c), Looking(i))
    case AwaitingGate(i, _) => To(s, t, s.m, PastGate(i))
    case PastGate(i) =>
      To(s, t, s.m, Returned(i, if i in s.m.connByIdent then Some(s.m.connByIdent[i]) else None))
    case Dialing(i, g) => To(s, t, s.m, if ok then DialDone(i, g, cfg) else DialFailed(i, g))
    case DialFailed(i, g) => To(s, t, AbandonDial(s.m, i), OpeningGate(i, g, None))
    case DialDone(i, g, cfg) => To(s, t, Publish(s.m, i, cfg), OpeningGate(i, g, Some(s.m.nextId)))
    case OpeningGate(i, g, r) => To(s, t, Close(s.m, g), Returned(i, r))
    case Returned(_, _) => s
  }

  function AdvanceOutage(s: Sys, t: nat, ok: bool): Sys
    requires t in s.threads && CanGo(s, s.threads[t], ok) && InOutage(s.threads[t])
  {
    match s.threads[t]
    case Watching(c, gen) =>
      if !ok then To(s, t, s.m, Stopped)
      else To(s, t, MarkDead(s.m, c, gen), if Kills(s.m, c, gen) then Died(c) else Stopped)
    case Died(c) => To(s, t, s.m, if s.m.heap[c].cfg.enabled then Looping(c, 0) else Failing(c, false))
    case Looping(c, a) =>
      To(s, t, s.m,
         if a >= s.m.heap[c].cfg.maxRetries then Failing(c, false)
         else if !HasChannels(s.m, c) then Failing(c, true)
         else Sleeping(c, a))
    case Sleeping(c, a) => To(s, t, s.m, if ok then Redialing(c, a) else Failing(c, false))
    case Redialing(c, a) => To(s, t, CountDial(s.m, c), if ok then Reviving(c) else Looping(c, a + 1))
    case Reviving(c) => To(s, t, Revive(s.m, c), ClosingOld(s.m.heap[c].done))
    case ClosingOld(d) => To(s, t, Close(s.m, d), Stopped)
    case Failing(c, tear) => To(s, t, SetFailed(s.m, c), ClosingDone(c, tear))
    case ClosingDone(c, tear) =>
      To(s, t, Close(s.m, s.m.heap[c].done), if tear then TearingDown(c) else Stopped)
    case Retrying(c) => To(s, t, ResetForRetry(s.m, c), Looping(c, 0))
  }

  function AdvanceChannel(s: Sys, t: nat, ok: bool): Sys
    requires t in s.threads && CanGo(s, s.threads[t], ok) && !InConnect(s.threads[t]) && !InOutage(s.threads[t])
  {
    match s.threads[t]
    case Opening(c) => if ok then To(s, t, IncrRefs(s.m, c), Inserting(c)) else To(s, t, s.m, Stopped)
    case Inserting(c) => To(s, t, InsertChannel(s.m, c), Stopped)
    case Decrementing(c) => To(s, t, DecrRefs(s.m, c), if LastRef(s.m, c) then TearingDown(c) else Stopped)
    case TearingDown(c) => To(s, t, Teardown(s.m, c), Stopped)
    case Stopped => s
  }
}
