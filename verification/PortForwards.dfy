/**
 The port forwards of a connection, and what a reconnect does to them.
 */
module PortForwards {
  import opened Wrappers
  import opened Counting

  datatype Spec = Spec(localPort: int, remoteHost: string, remotePort: int)

  class Listener {
    var open: bool

    constructor ()
      ensures open
    {
      open := true;
    }

    method Close()
      modifies this
      ensures !open
    {
      open := false;
    }
  }

  class PortForward {
    const spec: Spec
    const listener: Listener

    constructor (spec: Spec, listener: Listener)
      ensures this.spec == spec && this.listener == listener
    {
      this.spec, this.listener := spec, listener;
    }
  }

  /** Two tables hold the same specs, each equally often. */
  ghost predicate SameSpecs(m: map<nat, Spec>, m': map<nat, Spec>) {
    forall spec :: Count(m, spec) == Count(m', spec)
  }

  lemma SameSpecsAdd(m: map<nat, Spec>, k: nat, m': map<nat, Spec>, k': nat, spec: Spec)
    requires SameSpecs(m, m') && k !in m && k' !in m'
    ensures SameSpecs(m[k := spec], m'[k' := spec])
  {
    var m1, m1' := m[k := spec], m'[k' := spec];
    forall v
      ensures Count(m1, v) == Count(m1', v)
    {
      CountUpdate(m, k, spec, v);
      CountUpdate(m', k', spec, v);
    }
  }

  /** The entries among `keys` that can be bound again. */
  ghost function Kept(m: map<nat, Spec>, keys: set<nat>, binds: nat -> bool): map<nat, Spec> {
    map k | k in m && k in keys && binds(k) :: m[k]
  }

  lemma KeptOneMore(m: map<nat, Spec>, keys: set<nat>, k: nat, binds: nat -> bool)
    requires k in m && k !in keys
    ensures Kept(m, keys + {k}, binds) == if binds(k) then Kept(m, keys, binds)[k := m[k]] else Kept(m, keys, binds)
    ensures k !in Kept(m, keys, binds)
  {}

  lemma SameSpecsNone(m: map<nat, Spec>, binds: nat -> bool)
    ensures SameSpecs(map[], map[]) && Kept(m, {}, binds) == map[]
  {}

  class Table {
    var forwards: map<nat, PortForward>
    var nextId: nat

    /** Ids are not reused, and no two entries share a listener. */
    ghost predicate Valid()
      reads this, forwards.Values
    {
      && (forall k :: k in forwards ==> k < nextId)
      && (forall j, k :: j in forwards && k in forwards && j != k ==> forwards[j].listener != forwards[k].listener)
    }

    ghost function View(): map<nat, Spec>
      reads this, forwards.Values
    {
      map k | k in forwards :: forwards[k].spec
    }

    ghost predicate AllOpen()
      reads this, forwards.Values, set k | k in forwards :: forwards[k].listener
    {
      forall k :: k in forwards ==> forwards[k].listener.open
    }

    ghost function Listeners(): set<Listener>
      reads this, forwards.Values
    {
      set k | k in forwards :: forwards[k].listener
    }

    constructor ()
      ensures Valid() && View() == map[]
    {
      forwards, nextId := map[], 0;
    }

    /** AddPortForward: the connection must be registered and the port must bind. */
    method Add(registered: bool, binds: bool, spec: Spec) returns (id: Option<nat>)
      requires Valid()
      modifies this
      ensures Valid() && id.Some? == (registered && binds)
      ensures id == None ==> forwards == old(forwards) && nextId == old(nextId)
      ensures id.Some? ==>
        && id.value !in old(forwards) && nextId == old(nextId) + 1
        && id.value in forwards && View() == old(View())[id.value := spec]
        && fresh(forwards[id.value]) && fresh(forwards[id.value].listener) && forwards[id.value].listener.open
        && forwards == old(forwards)[id.value := forwards[id.value]]
      ensures old(AllOpen()) ==> AllOpen()
      ensures fresh(Listeners() - old(Listeners()))
    {
      if !registered || !binds {
        return None;
      }
      var listener := new Listener();
      var forward := new PortForward(spec, listener);
      id := Some(nextId);
      forwards := forwards[nextId := forward];
      nextId := nextId + 1;
    }

    /** RemovePortForward: the listener closes and the entry goes. */
    method Remove(registered: bool, id: nat) returns (ok: bool)
      requires Valid()
      modifies this, Listeners()
      ensures Valid() && ok == (registered && id in old(forwards))
      ensures ok ==> forwards == old(forwards) - {id} && !old(forwards[id].listener).open
      ensures !ok ==> forwards == old(forwards)
      ensures forall k :: k in forwards ==> forwards[k].listener.open == old(forwards[k].listener.open)
    {
      if !registered || id !in forwards {
        return false;
      }
      forwards[id].listener.Close();
      forwards := forwards - {id};
      return true;
    }

    /** attemptReconnect and teardownConnection close every listener and keep the entries. */
    method CloseAll()
      requires Valid()
      modifies Listeners()
      ensures forall k :: k in forwards ==> !forwards[k].listener.open
    {
      var rest := forwards.Keys;
      while rest != {}
        invariant rest <= forwards.Keys
        invariant forall k :: k in forwards && k !in rest ==> !forwards[k].listener.open
        decreases rest
      {
        var k :| k in rest;
        rest := rest - {k};
        forwards[k].listener.Close();
      }
    }

    /**
     The end of onReconnected: snapshot the entries, clear the table and add each spec again.
     `binds` says of each old entry whether its port can be bound again.
     */
    method Restore(registered: bool, binds: nat -> bool)
      requires Valid()
      modifies this
      ensures Valid() && AllOpen() && fresh(Listeners())
      ensures SameSpecs(View(), if registered then Kept(old(View()), old(View()).Keys, binds) else map[])
    {
      var snapshot := forwards;
      ghost var before := View();
      SameSpecsNone(before, binds);
      hide SameSpecs, Kept;
      forwards := map[];
      var rest := snapshot.Keys;
      ghost var seen: set<nat> := {};
      while rest != {}
        modifies this
        invariant Valid() && seen !! rest && seen + rest == before.Keys == snapshot.Keys
        invariant AllOpen() && fresh(Listeners())
        invariant forall k :: k in snapshot ==> snapshot[k].spec == before[k]
        invariant SameSpecs(View(), if registered then Kept(before, seen, binds) else map[])
        decreases rest
      {
        var k :| k in rest;
        ghost var was := View();
        var id := Add(registered, binds(k), snapshot[k].spec);
        KeptOneMore(before, seen, k, binds);
        if id.Some? {
          SameSpecsAdd(was, id.value, Kept(before, seen, binds), k, before[k]);
        } else {
          assert View() == was;
        }
        rest := rest - {k};
        seen := seen + {k};
      }
    }

    /**
     What a successful reconnect does to the table: attemptReconnect closes every listener,
     onReconnected clears the table and binds each forward again.
     */
    method Reconnect(registered: bool, binds: nat -> bool)
      requires Valid()
      modifies this, Listeners()
      ensures Valid() && AllOpen() && fresh(Listeners())
      ensures forall l :: l in old(Listeners()) ==> !l.open
      ensures SameSpecs(View(), if registered then Kept(old(View()), old(View()).Keys, binds) else map[])
    {
      CloseAll();
      assert View() == old(View());
      ghost var closed := Listeners();
      assert forall l :: l in closed ==> !l.open;
      Restore(registered, binds);
    }
  }
}
