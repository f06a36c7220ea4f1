/**
 The local tables as the program updates them: a transaction that replaces an origin, the loops that
 build groups and hosts from a bundle, and the loop that builds a bundle from hosts.
 */
module RegistryClient {
  import opened Wrappers
  import opened RegistrySync

  class HostStore {
    var hosts: seq<Row>
    var groups: seq<Group>
    var nextId: nat       // stands for uuid.NewString: every id it gives is new

    ghost function Contents(): Tables
      reads this
    {
      Tables(hosts, groups)
    }

    ghost predicate Valid()
      reads this
    {
      DistinctIds(Contents()) && IdsBelow(Contents(), nextId)
    }

    /** Opening a database: the rows it already has, none in a new file; `unused` is above every id in it. */
    constructor (stored: Tables, unused: nat)
      requires DistinctIds(stored) && IdsBelow(stored, unused)
      ensures Valid() && Contents() == stored
    {
      hosts, groups, nextId := stored.hosts, stored.groups, unused;
    }

    /** INSERT fails on a primary key that is taken, and then the transaction rolls back. */
    method SyncRegistryBundle(origin: string, newGroups: seq<Group>, newHosts: seq<Host>) returns (ok: bool)
      modifies this`hosts, this`groups
      ensures ok ==> Contents() == Sync(old(Contents()), origin, newGroups, newHosts)
      ensures !ok ==> Contents() == old(Contents())
      ensures DistinctIds(Remove(old(Contents()), origin)) ==>
        (ok <==> DistinctIds(Sync(old(Contents()), origin, newGroups, newHosts)))
    {
      var savedHosts, savedGroups := hosts, groups;
      hosts, groups := KeptHosts(hosts, origin), KeptGroups(groups, origin);
      ok := InsertGroups(newGroups, origin);
      if ok {
        ok := InsertHosts(newHosts, origin);
      }
      if !ok {
        hosts, groups := savedHosts, savedGroups;
      }
    }

    method InsertGroups(newGroups: seq<Group>, origin: string) returns (ok: bool)
      modifies this`groups
      ensures ok ==> groups == old(groups) + Owned(newGroups, origin)
      ensures GroupKeys(old(groups)) ==> (ok <==> GroupKeys(old(groups) + Owned(newGroups, origin)))
    {
      ghost var start, all := groups, groups + Owned(newGroups, origin);
      for i := 0 to |newGroups|
        invariant groups == all[..|start| + i]
        invariant GroupKeys(start) ==> GroupKeys(groups)
      {
        if exists g :: g in groups && g.id == newGroups[i].id {
          GroupTaken(all, |start| + i);
          return false;
        }
        groups := groups + [newGroups[i].(origin := origin)];
      }
      ok := true;
    }

    method InsertHosts(newHosts: seq<Host>, origin: string) returns (ok: bool)
      modifies this`hosts
      ensures ok ==> hosts == old(hosts) + ToRows(newHosts, origin)
      ensures HostKeys(old(hosts)) ==> (ok <==> HostKeys(old(hosts) + ToRows(newHosts, origin)))
    {
      hide ToRow;
      ghost var start, all := hosts, hosts + ToRows(newHosts, origin);
      for i := 0 to |newHosts|
        invariant hosts == all[..|start| + i]
        invariant HostKeys(start) ==> HostKeys(hosts)
      {
        if exists h :: h in hosts && h.id == newHosts[i].id {
          RowId(newHosts[i], origin);
          HostTaken(all, |start| + i);
          return false;
        }
        RowId(newHosts[i], origin);
        var row := ToRow(newHosts[i], origin);
        assert row == all[|start| + i] && row.id == newHosts[i].id;
        hosts := hosts + [row];
      }
      ok := true;
    }

    method DeleteRegistryBundle(origin: string)
      requires Valid()
      modifies this`hosts, this`groups
      ensures Valid() && Contents() == Remove(old(Contents()), origin)
    {
      KeptIds(Contents(), origin, nextId);
      hosts, groups := KeptHosts(hosts, origin), KeptGroups(groups, origin);
    }

    /** pullBundle, once the items have arrived. */
    method PullBundle(items: seq<HostItem>, registry: string, bundle: string, now: string) returns (ok: bool)
      requires Valid()
      modifies this
      ensures Valid() && (ok <==> '/' in bundle)
      ensures Contents() ==
        if ok then Pull(old(Contents()), items, Origin(registry, bundle), now, old(nextId)) else old(Contents())
    {
      var reference := ParseBundleRef(bundle);
      if reference == None {
        return false;
      }
      var origin := Origin(registry, bundle);
      hide DistinctIds, IdsBelow, GroupNames, IndexOf, BundleGroups, BundleHosts, Sync, Remove;
      var firstId := nextId;
      var newGroups, groupNames := BuildGroups(items, origin, now);
      var newHosts := BuildHosts(items, groupNames, now, firstId);
      PullKeepsIds(Contents(), items, origin, now, firstId);
      KeptIds(Contents(), origin, firstId);
      ok := SyncRegistryBundle(origin, newGroups, newHosts);
    }

    /** The first loop of pullBundle. */
    method BuildGroups(items: seq<HostItem>, origin: string, now: string)
      returns (newGroups: seq<Group>, groupNames: map<string, nat>)
      modifies this`nextId
      ensures newGroups == BundleGroups(items, origin, now, old(nextId))
      ensures nextId == old(nextId) + |newGroups|
      ensures groupNames.Keys == (set name | name in GroupNames(items))
      ensures forall name :: name in groupNames ==> groupNames[name] == old(nextId) + IndexOf(GroupNames(items), name)
    {
      newGroups, groupNames := [], map[];
      ghost var firstId := nextId;
      for i := 0 to |items|
        invariant newGroups == BundleGroups(items[..i], origin, now, firstId)
        invariant nextId == firstId + |newGroups|
        invariant forall name :: name in groupNames <==> name in GroupNames(items[..i])
        invariant forall name :: name in groupNames ==> groupNames[name] == firstId + IndexOf(GroupNames(items[..i]), name)
      {
        assert items[..i + 1][..i] == items[..i];
        ghost var names := GroupNames(items[..i]);
        if items[i].group != "" && items[i].group !in groupNames {
          IndexOfSnoc(names, items[i].group);
          groupNames := groupNames[items[i].group := nextId];
          newGroups := newGroups + [Group(nextId, items[i].group, |newGroups|, now, origin)];
          nextId := nextId + 1;
        }
      }
      assert items[..|items|] == items;
    }

    /** The second loop of pullBundle. */
    method BuildHosts(items: seq<HostItem>, groupNames: map<string, nat>, now: string, ghost firstId: nat)
      returns (newHosts: seq<Host>)
      requires nextId == firstId + |GroupNames(items)|
      requires forall name :: name in GroupNames(items) ==> name in groupNames
      requires forall name :: name in GroupNames(items) ==> groupNames[name] == firstId + IndexOf(GroupNames(items), name)
      modifies this`nextId
      ensures newHosts == BundleHosts(items, now, firstId)
      ensures nextId == old(nextId) + |items|
    {
      hide GroupNames, IndexOf;
      newHosts := [];
      ghost var all := BundleHosts(items, now, firstId);
      for i := 0 to |items|
        invariant nextId == old(nextId) + i
        invariant newHosts == all[..i]
      {
        var item := items[i];
        var groupId := None;
        if item.group != "" {
          groupId := Some(groupNames[item.group]);
        }
        var keyPath := if item.keyPath != "" then Some(item.keyPath) else None;
        newHosts := newHosts + [Host(nextId, item.title, item.hostname, item.port, item.username, item.authMethod,
                                     now, groupId, item.color, item.tags, keyPath)];
        nextId := nextId + 1;
      }
    }

    /** The items PushBundle sends: unknown ids are skipped. */
    method BuildItems(hostIds: seq<nat>) returns (items: seq<HostItem>)
      ensures items == Exports(groups, Selected(hosts, hostIds))
    {
      items := [];
      for i := 0 to |hostIds|
        invariant items == Exports(groups, Selected(hosts, hostIds[..i]))
      {
        assert hostIds[..i + 1][..i] == hostIds[..i];
        var h := FindHost(hosts, hostIds[i]);
        if h != None {
          var item := HostItem(h.value.title, h.value.hostname, h.value.port, h.value.username, h.value.authMethod,
                               "", h.value.tags, "", Text(h.value.color));
          if h.value.keyPath != None {
            item := item.(keyPath := h.value.keyPath.value);
          }
          if h.value.groupId != None {
            var g := FindGroup(groups, h.value.groupId.value);
            if g != None {
              item := item.(group := g.value.name);
            }
          }
          items := items + [item];
        }
      }
      assert hostIds[..|hostIds|] == hostIds;
    }
  }

  lemma RowId(h: Host, origin: string)
    ensures ToRow(h, origin).id == h.id
  {}

  lemma GroupTaken(groups: seq<Group>, n: nat)
    requires n < |groups| && exists g :: g in groups[..n] && g.id == groups[n].id
    ensures !GroupKeys(groups)
  {
    var g :| g in groups[..n] && g.id == groups[n].id;
    var k :| 0 <= k < n && groups[k] == g;
  }

  lemma HostTaken(hosts: seq<Row>, n: nat)
    requires n < |hosts| && exists h :: h in hosts[..n] && h.id == hosts[n].id
    ensures !HostKeys(hosts)
  {
    var h :| h in hosts[..n] && h.id == hosts[n].id;
    var k :| 0 <= k < n && hosts[k] == h;
  }

  lemma {:induction false} IndexOfSnoc(names: seq<string>, name: string)
    requires name !in names
    ensures IndexOf(names + [name], name) == |names|
    ensures forall other :: other in names ==> IndexOf(names + [name], other) == IndexOf(names, other)
    decreases |names|
  {
    if names == [] {
      assert names + [name] == [name];
    } else {
      assert (names + [name])[1..] == names[1..] + [name];
      IndexOfSnoc(names[1..], name);
    }
  }
}
