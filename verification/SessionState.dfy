/**
 The shared state of the SSH connection manager (internal/session) and, as functions on it,
 the critical sections that goroutines run while they hold Manager.mu or Connection.mu.

 Connections and channels are named by the ids the manager hands out (a counter stands for the
 uuid generator); Go channels of type `chan struct{}` (dial gates and reconnectDone) are named
 signals.  Closing a closed signal is what Go turns into a panic; `panicked` records it.
 */
module SessionState {

  datatype Ident = Ident(hostId: string, jumpHostId: string)

  datatype Phase = Connected | Reconnecting | Failed

  /** The resolved reconnect settings that steer the retry loop. */
  datatype ReconnectConfig = ReconnectConfig(enabled: bool, maxRetries: int)

  /**
   A Connection object.  `deaths` and `dials` are history: the generations in which markDead
   took effect, oldest first, and the dials made since the current outage began.
   */
  datatype Conn = Conn(
    ident: Ident,
    cfg: ReconnectConfig,
    phase: Phase,
    generation: nat,
    done: nat,
    refs: int,
    deaths: seq<nat>,
    dials: nat)

  datatype Shared = Shared(
    heap: map<nat, Conn>,             // every Connection ever allocated
    connections: set<nat>,            // keys of m.connections
    connByIdent: map<Ident, nat>,
    channels: map<nat, nat>,          // channel id -> connection id
    pending: map<Ident, nat>,         // identity -> gate of the dial in flight
    closed: set<nat>,                 // signals closed so far
    panicked: bool,                   // a closed signal was closed again
    nextId: nat,
    nextSignal: nat)

  /** The id of the virtual local-filesystem connection, and its identity. */
  const LOCAL: nat := 0
  const LOCAL_IDENT := Ident("local", "")

  const INIT := Shared(map[], {}, map[], map[], map[], {}, false, 1, 0)

  function NewConn(ident: Ident, cfg: ReconnectConfig, done: nat): Conn {
    Conn(ident, cfg, Connected, 0, done, 0, [], 0)
  }

  /** What the first critical section of ConnectOrReuse finds. */
  datatype Found =
    | Existing(conn: nat, phase: Phase, done: nat)
    | InFlight(gate: nat)
    | MustDial(gate: nat)

  function Lookup(m: Shared, i: Ident): (Shared, Found)
    requires i in m.connByIdent ==> m.connByIdent[i] in m.heap
  {
    if i in m.connByIdent then
      var c := m.connByIdent[i];
      (m, Existing(c, m.heap[c].phase, m.heap[c].done))
    else if i in m.pending then
      (m, InFlight(m.pending[i]))
    else
      (m.(pending := m.pending[i := m.nextSignal], nextSignal := m.nextSignal + 1), MustDial(m.nextSignal))
  }

  /** Forget a connection that failed, so that its identity can be dialed afresh. */
  function Drop(m: Shared, i: Ident, c: nat): Shared {
    m.(connByIdent := m.connByIdent - {i}, connections := m.connections - {c})
  }

  /** A dial that failed withdraws its gate from the pending map. */
  function AbandonDial(m: Shared, i: Ident): Shared {
    m.(pending := m.pending - {i})
  }

  /** A dial that succeeded registers its connection; the new id is the old nextId. */
  function Publish(m: Shared, i: Ident, cfg: ReconnectConfig): Shared {
    m.(heap := m.heap[m.nextId := NewConn(i, cfg, m.nextSignal)],
       connections := m.connections + {m.nextId},
       connByIdent := m.connByIdent[i := m.nextId],
       pending := m.pending - {i},
       nextId := m.nextId + 1,
       nextSignal := m.nextSignal + 1)
  }

  /** close(ch): a second close panics. */
  function Close(m: Shared, signal: nat): Shared {
    m.(closed := m.closed + {signal}, panicked := m.panicked || signal in m.closed)
  }

  function EnsureLocal(m: Shared): Shared {
    if LOCAL in m.connections then m
    else
      m.(heap := m.heap[LOCAL := NewConn(LOCAL_IDENT, ReconnectConfig(false, 0), m.nextSignal)],
         connections := m.connections + {LOCAL},
         connByIdent := m.connByIdent[LOCAL_IDENT := LOCAL],
         nextSignal := m.nextSignal + 1)
  }

  /** The guard of markDead: the caller is of this generation and the connection is up. */
  predicate Kills(m: Shared, c: nat, gen: nat)
    requires c in m.heap
  {
    m.heap[c].generation == gen && m.heap[c].phase == Connected
  }

  function MarkDead(m: Shared, c: nat, gen: nat): Shared
    requires c in m.heap
  {
    if Kills(m, c, gen) then
      m.(heap := m.heap[c := m.heap[c].(phase := Reconnecting, deaths := m.heap[c].deaths + [gen], dials := 0)])
    else m
  }

  function SetFailed(m: Shared, c: nat): Shared
    requires c in m.heap
  {
    m.(heap := m.heap[c := m.heap[c].(phase := Failed)])
  }

  function CountDial(m: Shared, c: nat): Shared
    requires c in m.heap
  {
    m.(heap := m.heap[c := m.heap[c].(dials := m.heap[c].dials + 1)])
  }

  /** onReconnected: a new generation with a new reconnectDone. */
  function Revive(m: Shared, c: nat): Shared
    requires c in m.heap
  {
    m.(heap := m.heap[c := m.heap[c].(phase := Connected, generation := m.heap[c].generation + 1,
        done := m.nextSignal)],
       nextSignal := m.nextSignal + 1)
  }

  /** RetryConnection after its check passed. */
  function ResetForRetry(m: Shared, c: nat): Shared
    requires c in m.heap
  {
    m.(heap := m.heap[c := m.heap[c].(phase := Reconnecting, done := m.nextSignal, dials := 0)],
       nextSignal := m.nextSignal + 1)
  }

  function IncrRefs(m: Shared, c: nat): Shared
    requires c in m.heap
  {
    m.(heap := m.heap[c := m.heap[c].(refs := m.heap[c].refs + 1)])
  }

  function DecrRefs(m: Shared, c: nat): Shared
    requires c in m.heap
  {
    m.(heap := m.heap[c := m.heap[c].(refs := m.heap[c].refs - 1)])
  }

  /** The answer decrRefs gives: the caller should tear the connection down. */
  predicate LastRef(m: Shared, c: nat)
    requires c in m.heap
  {
    m.heap[c].refs - 1 <= 0
  }

  function InsertChannel(m: Shared, c: nat): Shared {
    m.(channels := m.channels[m.nextId := c], nextId := m.nextId + 1)
  }

  function RemoveChannel(m: Shared, ch: nat): Shared {
    m.(channels := m.channels - {ch})
  }

  predicate HasChannels(m: Shared, c: nat) {
    exists ch :: ch in m.channels && m.channels[ch] == c
  }

  function Teardown(m: Shared, c: nat): Shared
    requires c in m.heap
  {
    if c == LOCAL then m
    else m.(connections := m.connections - {c}, connByIdent := m.connByIdent - {m.heap[c].ident})
  }
}
