/**
 What holds in every reachable state of the connection manager.
 */
module SessionInvariants {
  import opened Wrappers
  import opened Counting
  import opened SessionState
  import opened SessionSteps

  /** Goroutine `pc` runs the current outage of connection c. */
  predicate Owns(pc: Pc, c: nat) {
    match pc
    case Died(c') => c' == c
    case Looping(c', _) => c' == c
    case Sleeping(c', _) => c' == c
    case Redialing(c', _) => c' == c
    case Reviving(c') => c' == c
    case Failing(c', _) => c' == c
    case ClosingDone(c', _) => c' == c
    case Retrying(c') => c' == c
    case _ => false
  }

  /** Nobody runs an outage of connection c: what a disciplined RetryConnection waits for. */
  predicate Idle(s: Sys, c: nat) {
    forall t :: t in s.threads ==> !Owns(s.threads[t], c)
  }

  predicate Disciplined(s: Sys, step: Step) {
    step.Retry? ==> Idle(s, step.conn)
  }

  /** The signal goroutine `pc` is going to close, if any. */
  function Closes(m: Shared, pc: Pc): Option<nat> {
    match pc
    case Dialing(_, g) => Some(g)
    case DialFailed(_, g) => Some(g)
    case DialDone(_, g, _) => Some(g)
    case OpeningGate(_, g, _) => Some(g)
    case ClosingOld(d) => Some(d)
    case Died(c) => DoneOf(m, c)
    case Looping(c, _) => DoneOf(m, c)
    case Sleeping(c, _) => DoneOf(m, c)
    case Redialing(c, _) => DoneOf(m, c)
    case Reviving(c) => DoneOf(m, c)
    case Failing(c, _) => DoneOf(m, c)
    case ClosingDone(c, _) => DoneOf(m, c)
    case _ => None
  }

  function DoneOf(m: Shared, c: nat): Option<nat> {
    if c in m.heap then Some(m.heap[c].done) else None
  }

  predicate HasCloser(s: Sys, signal: nat) {
    exists t :: t in s.threads && Closes(s.m, s.threads[t]) == Some(signal)
  }

  predicate HasOwner(s: Sys, c: nat) {
    exists t :: t in s.threads && Owns(s.threads[t], c)
  }

  predicate Dials(pc: Pc, i: Ident) {
    match pc
    case Dialing(i', _) => i' == i
    case DialFailed(i', _) => i' == i
    case DialDone(i', _, _) => i' == i
    case _ => false
  }

  predicate HasDialer(s: Sys, i: Ident) {
    exists t :: t in s.threads && Dials(s.threads[t], i)
  }

  /** A signal that is not the reconnectDone of any connection. */
  predicate Detached(m: Shared, signal: nat) {
    forall c :: c in m.heap ==> m.heap[c].done != signal
  }

  // ----- the maps -----

  predicate MapsOk(m: Shared) {
    && (forall c :: c in m.connections ==> c in m.heap)
    && (forall i :: i in m.connByIdent ==>
          m.connByIdent[i] in m.connections && m.connByIdent[i] in m.heap && m.heap[m.connByIdent[i]].ident == i)
    && (forall ch :: ch in m.channels ==> ch < m.nextId && m.channels[ch] in m.heap)
    && (forall c :: c in m.heap ==> c < m.nextId && m.heap[c].done < m.nextSignal)
    && (forall c, c' :: c in m.heap && c' in m.heap && c != c' ==> m.heap[c].done != m.heap[c'].done)
    && (forall g :: g in m.closed ==> g < m.nextSignal)
    && (LOCAL in m.heap ==> LOCAL in m.connections && m.heap[LOCAL].phase == Connected)
    && 0 < m.nextId
    && (forall i :: i in m.pending && i != LOCAL_IDENT ==> i !in m.connByIdent)
  }

  // ----- what a program counter implies -----

  predicate Remote(m: Shared, c: nat) {
    c in m.heap && c != LOCAL
  }

  predicate RunsOutage(m: Shared, c: nat, dials: nat) {
    Remote(m, c) && m.heap[c].phase == Reconnecting && m.heap[c].dials == dials
  }

  function Budget(m: Shared, c: nat): nat
    requires c in m.heap
  {
    if m.heap[c].cfg.maxRetries < 0 then 0 else m.heap[c].cfg.maxRetries
  }

  predicate Fresh(m: Shared, signal: nat) {
    signal < m.nextSignal && signal !in m.closed && Detached(m, signal)
  }

  predicate PcOk(m: Shared, pc: Pc) {
    match pc
    case Looking(_) => true
    case AwaitingDone(i, c, d) => Remote(m, c) && m.heap[c].ident == i
    case Rechecking(i, c) => Remote(m, c) && m.heap[c].ident == i
    case Dropping(i, c) => Remote(m, c) && m.heap[c].ident == i
    case AwaitingGate(_, _) => true
    case PastGate(_) => true
    case Dialing(i, g) => i in m.pending && m.pending[i] == g && Fresh(m, g)
    case DialFailed(i, g) => i in m.pending && m.pending[i] == g && Fresh(m, g)
    case DialDone(i, g, _) => i in m.pending && m.pending[i] == g && Fresh(m, g)
    case OpeningGate(i, g, r) => Fresh(m, g) && (r.Some? ==> r.value in m.heap && m.heap[r.value].ident == i)
    case Returned(i, r) => r.Some? ==> r.value in m.heap && m.heap[r.value].ident == i
    case Watching(c, gen) => Remote(m, c) && gen <= m.heap[c].generation
    case Died(c) => RunsOutage(m, c, 0)
    case Looping(c, a) => RunsOutage(m, c, a) && a <= Budget(m, c)
    case Sleeping(c, a) => RunsOutage(m, c, a) && a < Budget(m, c)
    case Redialing(c, a) => RunsOutage(m, c, a) && a < Budget(m, c)
    case Reviving(c) => Remote(m, c) && m.heap[c].phase == Reconnecting && m.heap[c].dials <= Budget(m, c)
    case ClosingOld(d) => Fresh(m, d)
    case Failing(c, _) => Remote(m, c) && m.heap[c].phase == Reconnecting && m.heap[c].dials <= Budget(m, c)
    case ClosingDone(c, _) =>
      Remote(m, c) && m.heap[c].phase == Failed && m.heap[c].done !in m.closed && m.heap[c].dials <= Budget(m, c)
    case Retrying(c) => Remote(m, c) && m.heap[c].phase == Failed && m.heap[c].done in m.closed
    case Opening(c) => c in m.heap
    case Inserting(c) => c in m.heap
    case Decrementing(c) => c in m.heap
    case TearingDown(c) => c in m.heap
    case Stopped => true
  }

  predicate PcsOk(s: Sys) {
    forall t :: t in s.threads ==> PcOk(s.m, s.threads[t])
  }

  // ----- single ownership -----

  /** No two goroutines are going to close the same signal, or retry the same connection. */
  predicate NoRivals(s: Sys) {
    forall t, t' :: t in s.threads && t' in s.threads && t != t' ==> !Rivals(s.m, s.threads[t], s.threads[t'])
  }

  predicate Rivals(m: Shared, pc: Pc, pc': Pc) {
    || (Closes(m, pc).Some? && Closes(m, pc) == Closes(m, pc'))
    || (pc.Retrying? && pc'.Retrying? && pc.conn == pc'.conn)
  }

  // ----- outages -----

  function Upto(n: nat): (r: seq<nat>)
    ensures |r| == n && forall i :: 0 <= i < n ==> r[i] == i
  {
    seq(n, i => i)
  }

  predicate DeathsOk(m: Shared) {
    forall c :: c in m.heap ==>
      m.heap[c].deaths == Upto(m.heap[c].generation + (if m.heap[c].phase == Connected then 0 else 1))
  }

  predicate OutagesOk(s: Sys) {
    forall c :: c in s.m.heap ==> OutageOk(s, c)
  }

  predicate OutageOk(s: Sys, c: nat)
    requires c in s.m.heap
  {
    match s.m.heap[c].phase
    case Connected => s.m.heap[c].done !in s.m.closed
    case Reconnecting => s.m.heap[c].done !in s.m.closed && HasOwner(s, c)
    case Failed => s.m.heap[c].done in s.m.closed || HasOwner(s, c)
  }

  // ----- waiting -----

  predicate WaitOk(s: Sys, pc: Pc) {
    match pc
    case AwaitingDone(_, c, d) => d in s.m.closed || HasCloser(s, d)
    case AwaitingGate(_, g) => g in s.m.closed || HasCloser(s, g)
    case _ => true
  }

  predicate WaitsOk(s: Sys) {
    forall t :: t in s.threads ==> WaitOk(s, s.threads[t])
  }

  predicate PendingOk(s: Sys) {
    forall i :: i in s.m.pending ==> HasDialer(s, i)
  }

  // ----- reference counts -----

  /** Registered channels, opens past incrRefs but not inserted, closes past deletion but not decremented. */
  ghost function Holders(s: Sys, c: nat): nat {
    Count(s.m.channels, c) + Count(s.threads, Inserting(c)) + Count(s.threads, Decrementing(c))
  }

  ghost predicate RefsOk(s: Sys) {
    forall c :: c in s.m.heap ==>
      s.m.heap[c].refs >= Holders(s, c) && (c in s.m.connections ==> s.m.heap[c].refs == Holders(s, c))
  }

  ghost predicate Inv(s: Sys) {
    && MapsOk(s.m)
    && PcsOk(s)
    && NoRivals(s)
    && DeathsOk(s.m)
    && OutagesOk(s)
    && WaitsOk(s)
    && PendingOk(s)
    && RefsOk(s)
    && !s.m.panicked
  }
}
