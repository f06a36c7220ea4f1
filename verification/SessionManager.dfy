/**
 The manager and its connections as objects.  Each method is one critical section, and its contract
 says that it takes the state from its old value to the one the section's function gives.  How
 goroutines string the sections together is the business of SessionSteps, and only there are the
 dials of an outage counted.
 */
module SessionManager {
  import opened Wrappers
  import opened SessionState

  class Connection {
    const id: nat
    const ident: Ident
    const cfg: ReconnectConfig
    var phase: Phase
    var generation: nat
    var reconnectDone: nat
    var channelRefs: int
    ghost var deaths: seq<nat>
    ghost var dials: nat

    ghost function View(): Conn
      reads this
    {
      Conn(ident, cfg, phase, generation, reconnectDone, channelRefs, deaths, dials)
    }

    constructor (id: nat, ident: Ident, cfg: ReconnectConfig, done: nat)
      ensures this.id == id && this.ident == ident && View() == NewConn(ident, cfg, done)
    {
      this.id, this.ident, this.cfg := id, ident, cfg;
      phase, generation, reconnectDone, channelRefs := Connected, 0, done, 0;
      deaths, dials := [], 0;
    }
  }

  ghost function Conns(heap: map<nat, Connection>): map<nat, Conn>
    reads heap.Values
  {
    map c | c in heap :: heap[c].View()
  }

  ghost function Ids(index: map<Ident, Connection>): map<Ident, nat> {
    map i | i in index :: index[i].id
  }

  lemma DropsIndex(index: map<Ident, Connection>, ident: Ident)
    ensures Ids(index - {ident}) == Ids(index) - {ident}
  {}

  class Manager {
    var connections: map<nat, Connection>
    var connByIdent: map<Ident, Connection>
    var channels: map<nat, nat>
    var pending: map<Ident, nat>
    var closed: set<nat>
    var panicked: bool
    var nextId: nat
    var nextSignal: nat
    ghost var heap: map<nat, Connection>

    ghost predicate Valid()
      reads this, heap.Values
    {
      && (forall c :: c in heap ==> heap[c].id == c)
      && (forall c :: c in connections ==> c in heap && connections[c] == heap[c])
      && (forall i :: i in connByIdent ==> Knows(connByIdent[i]))
    }

    ghost predicate Knows(conn: Connection)
      reads this
    {
      conn.id in heap && heap[conn.id] == conn
    }

    ghost function View(): Shared
      reads this, heap.Values
    {
      Shared(HeapView(), connections.Keys, IndexView(), channels, pending, closed, panicked, nextId, nextSignal)
    }

    ghost function HeapView(): map<nat, Conn>
      reads this, heap.Values
    {
      Conns(heap)
    }

    ghost function IndexView(): map<Ident, nat>
      reads this
    {
      Ids(connByIdent)
    }

    /** A section that touches one connection changes one entry of the heap. */
    twostate lemma Edited(conn: Connection)
      requires old(Valid()) && heap == old(heap) && Knows(conn)
      requires forall c :: c in heap && heap[c] != conn ==> unchanged(heap[c])
      requires connections == old(connections) && connByIdent == old(connByIdent)
      ensures Valid()
      ensures HeapView() == old(HeapView())[conn.id := conn.View()]
      ensures IndexView() == old(IndexView())
    {}

    /** So does entering one. */
    twostate lemma Entered(conn: Connection)
      requires old(Valid()) && unchanged(conn) && conn.id !in old(heap) && heap == old(heap)[conn.id := conn]
      requires forall c :: c in old(heap) ==> unchanged(old(heap)[c])
      requires connections == old(connections)[conn.id := conn]
      requires connByIdent == old(connByIdent)[conn.ident := conn]
      ensures Valid() && Knows(conn)
      ensures HeapView() == old(HeapView())[conn.id := conn.View()]
      ensures IndexView() == old(IndexView())[conn.ident := conn.id]
    {}

    constructor ()
      ensures Valid() && View() == INIT
    {
      connections, connByIdent, channels, pending := map[], map[], map[], map[];
      closed, panicked, nextId, nextSignal := {}, false, 1, 0;
      heap := map[];
    }

    /** The first critical section of ConnectOrReuse. */
    method FindOrReserve(ident: Ident) returns (found: Found)
      requires Valid()
      modifies this`pending, this`nextSignal
      ensures Valid() && (View(), found) == Lookup(old(View()), ident)
    {
      if ident in connByIdent {
        var conn := connByIdent[ident];
        assert Knows(conn) && ident in IndexView();
        found := Existing(conn.id, conn.phase, conn.reconnectDone);
      } else if ident in pending {
        found := InFlight(pending[ident]);
      } else {
        var gate := nextSignal;
        nextSignal := nextSignal + 1;
        pending := pending[ident := gate];
        found := MustDial(gate);
      }
      assert HeapView() == old(HeapView()) && IndexView() == old(IndexView());
    }

    /** What a caller that waited for a reconnect looks at. */
    method IsConnected(conn: Connection) returns (connected: bool)
      requires Valid() && Knows(conn)
      ensures conn.id in View().heap && (connected <==> View().heap[conn.id].phase == Connected)
    {
      connected := conn.phase == Connected;
    }

    /** What a caller that waited for another one's dial finds. */
    method FindIndexed(ident: Ident) returns (found: Option<nat>)
      requires Valid()
      ensures found == if ident in View().connByIdent then Some(View().connByIdent[ident]) else None
    {
      found := if ident in connByIdent then Some(connByIdent[ident].id) else None;
    }

    method DropFailed(ident: Ident, conn: Connection)
      requires Valid() && Knows(conn)
      modifies this`connByIdent, this`connections
      ensures Valid() && View() == Drop(old(View()), ident, conn.id)
    {
      DropsIndex(connByIdent, ident);
      hide Conns, Ids;
      connByIdent := connByIdent - {ident};
      connections := connections - {conn.id};
      assert HeapView() == old(HeapView());
    }

    method WithdrawGate(ident: Ident)
      requires Valid()
      modifies this`pending
      ensures Valid() && View() == AbandonDial(old(View()), ident)
    {
      pending := pending - {ident};
    }

    /** Enter a new connection into both maps. */
    method Enter(conn: Connection)
      requires Valid() && conn.id !in heap
      modifies this`heap, this`connections, this`connByIdent
      ensures Valid() && Knows(conn) && heap == old(heap)[conn.id := conn]
      ensures HeapView() == old(HeapView())[conn.id := conn.View()]
      ensures IndexView() == old(IndexView())[conn.ident := conn.id]
      ensures connections == old(connections)[conn.id := conn]
    {
      heap := heap[conn.id := conn];
      connections := connections[conn.id := conn];
      connByIdent := connByIdent[conn.ident := conn];
      Entered(conn);
    }

    /** The id is new: in the program it is a uuid, here a counter that every reachable state keeps ahead. */
    method Register(ident: Ident, cfg: ReconnectConfig) returns (conn: Connection)
      requires Valid() && nextId !in heap
      modifies this
      ensures Valid() && View() == Publish(old(View()), ident, cfg)
      ensures fresh(conn) && conn.id == old(nextId) && Knows(conn)
    {
      hide NewConn, Conns, Ids;
      conn := new Connection(nextId, ident, cfg, nextSignal);
      nextId, nextSignal := nextId + 1, nextSignal + 1;
      pending := pending - {ident};
      assert HeapView() == old(HeapView()) && IndexView() == old(IndexView());
      Enter(conn);
    }

    method CloseSignal(signal: nat)
      requires Valid()
      modifies this`closed, this`panicked
      ensures Valid() && View() == Close(old(View()), signal)
    {
      panicked := panicked || signal in closed;
      closed := closed + {signal};
    }

    /** The local connection is never torn down, so one that was ever made is still registered. */
    method EnsureLocalConnection() returns (conn: Connection)
      requires Valid() && (LOCAL in heap ==> LOCAL in connections)
      modifies this
      ensures Valid() && View() == EnsureLocal(old(View())) && Knows(conn) && conn.id == LOCAL
    {
      hide NewConn, Conns, Ids;
      if LOCAL in connections {
        return connections[LOCAL];
      }
      conn := new Connection(LOCAL, LOCAL_IDENT, ReconnectConfig(false, 0), nextSignal);
      nextSignal := nextSignal + 1;
      assert HeapView() == old(HeapView()) && IndexView() == old(IndexView());
      Enter(conn);
    }

    method MarkConnDead(conn: Connection, gen: nat) returns (took: bool)
      requires Valid() && Knows(conn)
      modifies conn
      ensures Valid() && View() == MarkDead(old(View()), conn.id, gen)
      ensures took == Kills(old(View()), conn.id, gen)
    {
      took := !(conn.generation != gen || conn.phase != Connected);
      if took {
        conn.phase := Reconnecting;
        conn.deaths, conn.dials := conn.deaths + [gen], 0;
      }
      Edited(conn);
    }

    method GiveUp(conn: Connection)
      requires Valid() && Knows(conn)
      modifies conn
      ensures Valid() && View() == SetFailed(old(View()), conn.id)
    {
      conn.phase := Failed;
      Edited(conn);
    }

    /** onReconnected, up to the close of the old reconnectDone, which it returns. */
    method BringUp(conn: Connection) returns (oldDone: nat)
      requires Valid() && Knows(conn)
      modifies conn, this`nextSignal
      ensures Valid() && View() == Revive(old(View()), conn.id) && oldDone == old(conn.reconnectDone)
    {
      oldDone := conn.reconnectDone;
      conn.phase := Connected;
      conn.generation := conn.generation + 1;
      conn.reconnectDone := nextSignal;
      nextSignal := nextSignal + 1;
      Edited(conn);
    }

    /** The check of RetryConnection. */
    method CanRetry(id: nat) returns (ok: bool)
      requires Valid()
      ensures ok <==> id in View().connections && View().heap[id].phase == Failed
    {
      ok := id in connections && connections[id].phase == Failed;
    }

    method BeginRetry(conn: Connection)
      requires Valid() && Knows(conn)
      modifies conn, this`nextSignal
      ensures Valid() && View() == ResetForRetry(old(View()), conn.id)
    {
      conn.phase := Reconnecting;
      conn.reconnectDone := nextSignal;
      conn.dials := 0;
      nextSignal := nextSignal + 1;
      Edited(conn);
    }

    method IncrementRefs(conn: Connection)
      requires Valid() && Knows(conn)
      modifies conn
      ensures Valid() && View() == IncrRefs(old(View()), conn.id)
    {
      conn.channelRefs := conn.channelRefs + 1;
      Edited(conn);
    }

    method DecrementRefs(conn: Connection) returns (shouldClose: bool)
      requires Valid() && Knows(conn)
      modifies conn
      ensures Valid() && View() == DecrRefs(old(View()), conn.id)
      ensures shouldClose == LastRef(old(View()), conn.id)
    {
      conn.channelRefs := conn.channelRefs - 1;
      shouldClose := conn.channelRefs <= 0;
      Edited(conn);
    }

    method AddChannel(conn: Connection) returns (channelId: nat)
      requires Valid()
      modifies this`channels, this`nextId
      ensures Valid() && View() == InsertChannel(old(View()), conn.id) && channelId == old(nextId)
    {
      channelId := nextId;
      nextId := nextId + 1;
      channels := channels[channelId := conn.id];
    }

    /**
     The critical section of CloseChannel; None if no such channel, else whether its connection is still
     registered.
     */
    method TakeChannel(channelId: nat) returns (owner: Option<(nat, bool)>)
      requires Valid()
      modifies this`channels
      ensures Valid()
      ensures channelId !in old(channels) ==> owner == None && View() == old(View())
      ensures channelId in old(channels) ==>
        && View() == RemoveChannel(old(View()), channelId)
        && owner == Some((old(channels)[channelId], old(channels)[channelId] in old(connections)))
    {
      if channelId !in channels {
        return None;
      }
      var c := channels[channelId];
      channels := channels - {channelId};
      owner := Some((c, c in connections));
    }

    /** The scan of reconnectLoop for a channel that is still open. */
    method FindOpenChannel(id: nat) returns (found: bool)
      ensures found <==> HasChannels(View(), id)
    {
      var rest := channels.Keys;
      found := false;
      while rest != {} && !found
        invariant rest <= channels.Keys
        invariant found ==> HasChannels(View(), id)
        invariant !found ==> forall ch :: ch in channels && channels[ch] == id ==> ch in rest
        decreases rest
      {
        var ch :| ch in rest;
        rest := rest - {ch};
        if channels[ch] == id {
          found := true;
          assert ch in View().channels;
        }
      }
    }

    method TearDown(conn: Connection)
      requires Valid() && Knows(conn)
      modifies this`connections, this`connByIdent
      ensures Valid() && View() == Teardown(old(View()), conn.id)
    {
      if conn.id == LOCAL {
        return;
      }
      connections := connections - {conn.id};
      connByIdent := connByIdent - {conn.ident};
      assert HeapView() == old(HeapView());
    }
  }
}
