/**
 Pulling a bundle into the local host tables, and building a bundle from them.
 */
module RegistrySync {
  import opened Wrappers

  /** One host on the wire.  `tags` None is Go's nil slice. */
  datatype HostItem = HostItem(title: string, hostname: string, port: int, username: string, authMethod: string,
                               keyPath: string, tags: Option<seq<string>>, group: string, color: string)

  datatype Group = Group(id: nat, name: string, sortOrder: nat, createdAt: string, origin: string)

  datatype Host = Host(id: nat, title: string, hostname: string, port: int, username: string, authMethod: string,
                       createdAt: string, groupId: Option<nat>, color: string, tags: Option<seq<string>>,
                       keyPath: Option<string>)

  /** A row of the hosts table; None is NULL. */
  datatype Row = Row(id: nat, title: string, hostname: string, port: int, username: string, authMethod: string,
                     createdAt: string, groupId: Option<nat>, color: Option<string>, tags: Option<seq<string>>,
                     keyPath: Option<string>, origin: string)

  datatype Tables = Tables(hosts: seq<Row>, groups: seq<Group>)

  // ----- the wire and the columns -----

  /** JSON with omitempty: an empty tag list does not travel. */
  function Wire(item: HostItem): HostItem {
    item.(tags := if item.tags == Some([]) then None else item.tags)
  }

  function NullStr(s: string): Option<string> {
    if s == "" || s == "null" then None else Some(s)
  }

  function NullStrPtr(p: Option<string>): Option<string> {
    if p == None || p.value == "" then None else p
  }

  function Text(column: Option<string>): string {
    if column == None then "" else column.value
  }

  /** Tags are stored as JSON; the text of a nil slice, "null", becomes NULL. */
  function ToRow(h: Host, origin: string): Row {
    Row(h.id, h.title, h.hostname, h.port, h.username, h.authMethod, h.createdAt, h.groupId,
        NullStr(h.color), h.tags, NullStrPtr(h.keyPath), origin)
  }

  // ----- SyncRegistryBundle -----

  function KeptHosts(hosts: seq<Row>, origin: string): seq<Row> {
    if hosts == [] then []
    else
      var n := |hosts| - 1;
      KeptHosts(hosts[..n], origin) + if hosts[n].origin == origin then [] else [hosts[n]]
  }

  function KeptGroups(groups: seq<Group>, origin: string): seq<Group> {
    if groups == [] then []
    else
      var n := |groups| - 1;
      KeptGroups(groups[..n], origin) + if groups[n].origin == origin then [] else [groups[n]]
  }

  function HostsOf(hosts: seq<Row>, origin: string): seq<Row> {
    if hosts == [] then []
    else
      var n := |hosts| - 1;
      HostsOf(hosts[..n], origin) + if hosts[n].origin == origin then [hosts[n]] else []
  }

  function GroupsWith(groups: seq<Group>, origin: string): seq<Group> {
    if groups == [] then []
    else
      var n := |groups| - 1;
      GroupsWith(groups[..n], origin) + if groups[n].origin == origin then [groups[n]] else []
  }

  function ToRows(hosts: seq<Host>, origin: string): seq<Row> {
    seq(|hosts|, i requires 0 <= i < |hosts| => ToRow(hosts[i], origin))
  }

  function Owned(groups: seq<Group>, origin: string): seq<Group> {
    seq(|groups|, i requires 0 <= i < |groups| => groups[i].(origin := origin))
  }

  function Sync(t: Tables, origin: string, groups: seq<Group>, hosts: seq<Host>): Tables {
    Tables(KeptHosts(t.hosts, origin) + ToRows(hosts, origin), KeptGroups(t.groups, origin) + Owned(groups, origin))
  }

  function Remove(t: Tables, origin: string): Tables {
    Tables(KeptHosts(t.hosts, origin), KeptGroups(t.groups, origin))
  }

  /** The primary keys of both tables. */
  ghost predicate DistinctIds(t: Tables) {
    HostKeys(t.hosts) && GroupKeys(t.groups)
  }

  ghost predicate HostKeys(hosts: seq<Row>) {
    forall i, j :: 0 <= i < j < |hosts| ==> hosts[i].id != hosts[j].id
  }

  ghost predicate GroupKeys(groups: seq<Group>) {
    forall i, j :: 0 <= i < j < |groups| ==> groups[i].id != groups[j].id
  }

  ghost predicate IdsBelow(t: Tables, bound: nat) {
    (forall h :: h in t.hosts ==> h.id < bound) && (forall g :: g in t.groups ==> g.id < bound)
  }

  // ----- pullBundle -----

  predicate Grouped(items: seq<HostItem>, names: seq<string>) {
    forall k :: 0 <= k < |items| ==> items[k].group == "" || items[k].group in names
  }

  /** The named groups of the items, in order of first use. */
  function GroupNames(items: seq<HostItem>): (names: seq<string>)
    ensures Grouped(items, names)
  {
    if items == [] then []
    else
      var n := |items| - 1;
      var names := GroupNames(items[..n]);
      if items[n].group != "" && items[n].group !in names then names + [items[n].group] else names
  }

  function IndexOf(names: seq<string>, name: string): (i: nat)
    requires name in names
    ensures i < |names| && names[i] == name
  {
    if names[0] == name then 0 else 1 + IndexOf(names[1..], name)
  }

  function NewGroups(names: seq<string>, origin: string, now: string, firstId: nat): seq<Group> {
    seq(|names|, i requires 0 <= i < |names| => Group(firstId + i, names[i], i, now, origin))
  }

  /** The local host for one item; group ids are consecutive from firstGroupId. */
  function NewHost(item: HostItem, names: seq<string>, now: string, id: nat, firstGroupId: nat): Host
    requires item.group == "" || item.group in names
  {
    Host(id, item.title, item.hostname, item.port, item.username, item.authMethod, now,
         if item.group == "" then None else Some(firstGroupId + IndexOf(names, item.group)),
         item.color, item.tags, if item.keyPath == "" then None else Some(item.keyPath))
  }

  function NewHosts(items: seq<HostItem>, names: seq<string>, now: string, firstId: nat, firstGroupId: nat): seq<Host>
    requires Grouped(items, names)
  {
    seq(|items|, i requires 0 <= i < |items| => NewHost(items[i], names, now, firstId + i, firstGroupId))
  }

  ghost predicate Uses(items: seq<HostItem>, name: string) {
    name != "" && exists k :: 0 <= k < |items| && items[k].group == name
  }

  /** Each name in use, once. */
  lemma {:induction false} GroupNamesExact(items: seq<HostItem>)
    ensures var names := GroupNames(items);
      && (forall i, j :: 0 <= i < j < |names| ==> names[i] != names[j])
      && (forall name :: name in names <==> Uses(items, name))
    decreases |items|
  {
    if items != [] {
      GroupNamesExact(items[..|items| - 1]);
      hide Uses;
      forall name
        ensures name in GroupNames(items) <==> Uses(items, name)
      {
        UsesSnoc(items, name);
        UsesSnoc(items, items[|items| - 1].group);
      }
    }
  }

  lemma UsesSnoc(items: seq<HostItem>, name: string)
    requires items != []
    ensures Uses(items, name) <==> Uses(items[..|items| - 1], name) || (name != "" && items[|items| - 1].group == name)
  {
    var fewer := items[..|items| - 1];
    if Uses(fewer, name) {
      var k :| 0 <= k < |fewer| && fewer[k].group == name;
      assert items[k].group == name;
    }
    if Uses(items, name) && items[|items| - 1].group != name {
      var k :| 0 <= k < |items| && items[k].group == name;
      assert fewer[k].group == name;
    }
  }

  /** What pullBundle builds from the items: the groups first, then the hosts. */
  function BundleGroups(items: seq<HostItem>, origin: string, now: string, nextId: nat): seq<Group> {
    NewGroups(GroupNames(items), origin, now, nextId)
  }

  function BundleHosts(items: seq<HostItem>, now: string, nextId: nat): seq<Host> {
    NewHosts(items, GroupNames(items), now, nextId + |GroupNames(items)|, nextId)
  }

  /** What one pull leaves in the tables. */
  function Pull(t: Tables, items: seq<HostItem>, origin: string, now: string, nextId: nat): Tables {
    Sync(t, origin, BundleGroups(items, origin, now, nextId), BundleHosts(items, now, nextId))
  }

  // ----- PushBundle -----

  function FindGroup(groups: seq<Group>, id: nat): Option<Group> {
    if groups == [] then None else if groups[0].id == id then Some(groups[0]) else FindGroup(groups[1..], id)
  }

  function FindHost(hosts: seq<Row>, id: nat): Option<Row> {
    if hosts == [] then None else if hosts[0].id == id then Some(hosts[0]) else FindHost(hosts[1..], id)
  }

  function GroupName(groups: seq<Group>, id: Option<nat>): string {
    if id == None then ""
    else
      var g := FindGroup(groups, id.value);
      if g == None then "" else g.value.name
  }

  /** The exported fields of a host, its group by name. */
  function Export(groups: seq<Group>, row: Row): HostItem {
    HostItem(row.title, row.hostname, row.port, row.username, row.authMethod,
             Text(row.keyPath), row.tags, GroupName(groups, row.groupId), Text(row.color))
  }

  function Exports(groups: seq<Group>, rows: seq<Row>): seq<HostItem> {
    seq(|rows|, i requires 0 <= i < |rows| => Export(groups, rows[i]))
  }

  /** The selected hosts that exist, in the order selected. */
  function Selected(hosts: seq<Row>, ids: seq<nat>): seq<Row> {
    if ids == [] then []
    else
      var n := |ids| - 1;
      var row := FindHost(hosts, ids[n]);
      Selected(hosts, ids[..n]) + if row == None then [] else [row.value]
  }

  /** The ids that name a row, in the order given. */
  function Known(hosts: seq<Row>, ids: seq<nat>): seq<nat> {
    if ids == [] then []
    else
      var n := |ids| - 1;
      Known(hosts, ids[..n]) + if exists k :: 0 <= k < |hosts| && hosts[k].id == ids[n] then [ids[n]] else []
  }

  lemma {:induction false} FindHostExact(hosts: seq<Row>, id: nat)
    ensures FindHost(hosts, id).Some? <==> exists k :: 0 <= k < |hosts| && hosts[k].id == id
    ensures FindHost(hosts, id).Some? ==> FindHost(hosts, id).value in hosts && FindHost(hosts, id).value.id == id
    decreases |hosts|
  {
    if hosts != [] {
      FindHostExact(hosts[1..], id);
      if hosts[0].id != id {
        if k: nat :| k < |hosts| && hosts[k].id == id { assert hosts[1..][k - 1].id == id; }
        if k: nat :| k < |hosts| - 1 && hosts[1..][k].id == id { assert hosts[k + 1].id == id; }
      }
    }
  }

  /** The selection is one row of the table for each known id, in the order selected; unknown ids are skipped. */
  lemma {:induction false} SelectedExact(hosts: seq<Row>, ids: seq<nat>)
    ensures var rows := Selected(hosts, ids);
      |rows| == |Known(hosts, ids)| && forall k :: 0 <= k < |rows| ==> rows[k] in hosts && rows[k].id == Known(hosts, ids)[k]
    decreases |ids|
  {
    if ids != [] {
      SelectedExact(hosts, ids[..|ids| - 1]);
      FindHostExact(hosts, ids[|ids| - 1]);
      hide FindHost;
    }
  }

  // ----- theorems -----

  lemma KeptSnoc(hosts: seq<Row>, h: Row, origin: string)
    ensures KeptHosts(hosts + [h], origin) == KeptHosts(hosts, origin) + if h.origin == origin then [] else [h]
    ensures HostsOf(hosts + [h], origin) == HostsOf(hosts, origin) + if h.origin == origin then [h] else []
  {
    assert (hosts + [h])[..|hosts|] == hosts;
  }

  lemma {:induction false} KeptAppend(kept: seq<Row>, more: seq<Row>, origin: string)
    requires forall k :: 0 <= k < |more| ==> more[k].origin == origin
    ensures KeptHosts(kept + more, origin) == KeptHosts(kept, origin)
    ensures HostsOf(kept + more, origin) == HostsOf(kept, origin) + more
    decreases |more|
  {
    hide KeptHosts, HostsOf;
    if more == [] {
      assert kept + more == kept;
    } else {
      var n := |more| - 1;
      KeptAppend(kept, more[..n], origin);
      KeptSnoc(kept + more[..n], more[n], origin);
      assert kept + more[..n] + [more[n]] == kept + more;
    }
  }

  lemma KeptGroupsSnoc(groups: seq<Group>, g: Group, origin: string)
    ensures KeptGroups(groups + [g], origin) == KeptGroups(groups, origin) + if g.origin == origin then [] else [g]
    ensures GroupsWith(groups + [g], origin) == GroupsWith(groups, origin) + if g.origin == origin then [g] else []
  {
    assert (groups + [g])[..|groups|] == groups;
  }

  lemma {:induction false} KeptGroupsAppend(kept: seq<Group>, more: seq<Group>, origin: string)
    requires forall k :: 0 <= k < |more| ==> more[k].origin == origin
    ensures KeptGroups(kept + more, origin) == KeptGroups(kept, origin)
    ensures GroupsWith(kept + more, origin) == GroupsWith(kept, origin) + more
    decreases |more|
  {
    hide KeptGroups, GroupsWith;
    if more == [] {
      assert kept + more == kept;
    } else {
      var n := |more| - 1;
      KeptGroupsAppend(kept, more[..n], origin);
      KeptGroupsSnoc(kept + more[..n], more[n], origin);
      assert kept + more[..n] + [more[n]] == kept + more;
    }
  }

  lemma {:induction false} KeptTwice(hosts: seq<Row>, origin: string)
    ensures KeptHosts(KeptHosts(hosts, origin), origin) == KeptHosts(hosts, origin)
    ensures HostsOf(KeptHosts(hosts, origin), origin) == []
    ensures forall h :: h in KeptHosts(hosts, origin) ==> h in hosts
    decreases |hosts|
  {
    if hosts != [] {
      var n := |hosts| - 1;
      KeptTwice(hosts[..n], origin);
      var kept := KeptHosts(hosts[..n], origin);
      assert (kept + [hosts[n]])[..|kept|] == kept;
      assert kept + [] == kept;
    }
  }

  lemma {:induction false} KeptGroupsTwice(groups: seq<Group>, origin: string)
    ensures KeptGroups(KeptGroups(groups, origin), origin) == KeptGroups(groups, origin)
    ensures GroupsWith(KeptGroups(groups, origin), origin) == []
    ensures forall g :: g in KeptGroups(groups, origin) ==> g in groups
    decreases |groups|
  {
    if groups != [] {
      var n := |groups| - 1;
      KeptGroupsTwice(groups[..n], origin);
      var kept := KeptGroups(groups[..n], origin);
      assert (kept + [groups[n]])[..|kept|] == kept;
      assert kept + [] == kept;
    }
  }

  /** A sync is a full replace: the origin holds exactly the given rows in order, every other origin what it had. */
  lemma SyncReplaces(t: Tables, origin: string, groups: seq<Group>, hosts: seq<Host>)
    ensures var t' := Sync(t, origin, groups, hosts);
      && HostsOf(t'.hosts, origin) == ToRows(hosts, origin)
      && GroupsWith(t'.groups, origin) == Owned(groups, origin)
      && KeptHosts(t'.hosts, origin) == KeptHosts(t.hosts, origin)
      && KeptGroups(t'.groups, origin) == KeptGroups(t.groups, origin)
  {
    KeptTwice(t.hosts, origin);
    KeptGroupsTwice(t.groups, origin);
    KeptAppend(KeptHosts(t.hosts, origin), ToRows(hosts, origin), origin);
    KeptGroupsAppend(KeptGroups(t.groups, origin), Owned(groups, origin), origin);
  }

  lemma {:induction false} KeptOf(hosts: seq<Row>, origin: string, other: string)
    requires other != origin
    ensures HostsOf(KeptHosts(hosts, origin), other) == HostsOf(hosts, other)
    decreases |hosts|
  {
    if hosts != [] {
      var n := |hosts| - 1;
      KeptOf(hosts[..n], origin, other);
      assert hosts == hosts[..n] + [hosts[n]];
      KeptSnoc(hosts[..n], hosts[n], origin);
      KeptSnoc(hosts[..n], hosts[n], other);
      KeptSnoc(KeptHosts(hosts[..n], origin), hosts[n], other);
      hide KeptHosts, HostsOf;
      if hosts[n].origin == origin {
        assert KeptHosts(hosts, origin) == KeptHosts(hosts[..n], origin);
      }
    }
  }

  lemma {:induction false} KeptGroupsOf(groups: seq<Group>, origin: string, other: string)
    requires other != origin
    ensures GroupsWith(KeptGroups(groups, origin), other) == GroupsWith(groups, other)
    decreases |groups|
  {
    if groups != [] {
      var n := |groups| - 1;
      KeptGroupsOf(groups[..n], origin, other);
      assert groups == groups[..n] + [groups[n]];
      KeptGroupsSnoc(groups[..n], groups[n], origin);
      KeptGroupsSnoc(groups[..n], groups[n], other);
      KeptGroupsSnoc(KeptGroups(groups[..n], origin), groups[n], other);
      hide KeptGroups, GroupsWith;
      if groups[n].origin == origin {
        assert KeptGroups(groups, origin) == KeptGroups(groups[..n], origin);
      }
    }
  }

  lemma {:induction false} NoneOf(kept: seq<Row>, more: seq<Row>, other: string)
    requires forall k :: 0 <= k < |more| ==> more[k].origin != other
    ensures HostsOf(kept + more, other) == HostsOf(kept, other)
    decreases |more|
  {
    hide HostsOf;
    if more == [] {
      assert kept + more == kept;
    } else {
      var n := |more| - 1;
      NoneOf(kept, more[..n], other);
      KeptSnoc(kept + more[..n], more[n], other);
      assert kept + more[..n] + [more[n]] == kept + more;
    }
  }

  lemma {:induction false} NoGroupsOf(kept: seq<Group>, more: seq<Group>, other: string)
    requires forall k :: 0 <= k < |more| ==> more[k].origin != other
    ensures GroupsWith(kept + more, other) == GroupsWith(kept, other)
    decreases |more|
  {
    hide GroupsWith;
    if more == [] {
      assert kept + more == kept;
    } else {
      var n := |more| - 1;
      NoGroupsOf(kept, more[..n], other);
      KeptGroupsSnoc(kept + more[..n], more[n], other);
      assert kept + more[..n] + [more[n]] == kept + more;
    }
  }

  /** Syncing or removing one origin leaves the rows of any other as they are, in their order. */
  lemma OtherOriginsUntouched(t: Tables, origin: string, groups: seq<Group>, hosts: seq<Host>, other: string)
    requires other != origin
    ensures HostsOf(Sync(t, origin, groups, hosts).hosts, other) == HostsOf(t.hosts, other)
    ensures GroupsWith(Sync(t, origin, groups, hosts).groups, other) == GroupsWith(t.groups, other)
    ensures HostsOf(Remove(t, origin).hosts, other) == HostsOf(t.hosts, other)
    ensures GroupsWith(Remove(t, origin).groups, other) == GroupsWith(t.groups, other)
    ensures HostsOf(Remove(t, origin).hosts, origin) == [] && GroupsWith(Remove(t, origin).groups, origin) == []
  {
    KeptOf(t.hosts, origin, other);
    KeptGroupsOf(t.groups, origin, other);
    KeptTwice(t.hosts, origin);
    KeptGroupsTwice(t.groups, origin);
    NoneOf(KeptHosts(t.hosts, origin), ToRows(hosts, origin), other);
    NoGroupsOf(KeptGroups(t.groups, origin), Owned(groups, origin), other);
  }

  lemma {:induction false} FindSkip(kept: seq<Group>, more: seq<Group>, id: nat)
    requires forall k :: 0 <= k < |kept| ==> kept[k].id != id
    ensures FindGroup(kept + more, id) == FindGroup(more, id)
    decreases |kept|
  {
    if kept == [] {
      assert kept + more == more;
    } else {
      FindSkip(kept[1..], more, id);
      assert (kept + more)[1..] == kept[1..] + more;
    }
  }

  lemma {:induction false} FindAt(groups: seq<Group>, k: nat)
    requires k < |groups| && GroupKeys(groups)
    ensures FindGroup(groups, groups[k].id) == Some(groups[k])
    decreases k
  {
    if k > 0 { FindAt(groups[1..], k - 1); }
  }

  /** What survives the columns: a colour spelled "null" is stored as no colour. */
  function Clean(item: HostItem): HostItem {
    item.(color := if item.color == "null" then "" else item.color)
  }

  /** After a pull, looking a group up by the id of an item's host gives the item's group name. */
  lemma PulledGroupName(t: Tables, items: seq<HostItem>, origin: string, now: string, nextId: nat, k: nat)
    requires IdsBelow(t, nextId) && k < |items|
    ensures GroupName(Pull(t, items, origin, now, nextId).groups, BundleHosts(items, now, nextId)[k].groupId)
            == items[k].group
  {
    BundleHostGroup(items, now, nextId, k);
    hide GroupNames, Grouped, BundleHosts, FindGroup, Pull;
    if items[k].group != "" {
      BundleGroupFound(t, items, origin, now, nextId, IndexOf(GroupNames(items), items[k].group));
    }
  }

  lemma BundleHostGroup(items: seq<HostItem>, now: string, nextId: nat, k: nat)
    requires k < |items|
    ensures items[k].group == "" || items[k].group in GroupNames(items)
    ensures BundleHosts(items, now, nextId)[k].groupId ==
      if items[k].group == "" then None else Some(nextId + IndexOf(GroupNames(items), items[k].group))
  {
    hide GroupNames, IndexOf;
  }

  lemma BundleGroupFound(t: Tables, items: seq<HostItem>, origin: string, now: string, nextId: nat, i: nat)
    requires IdsBelow(t, nextId) && i < |GroupNames(items)|
    ensures var g := FindGroup(Pull(t, items, origin, now, nextId).groups, nextId + i);
      g.Some? && g.value.name == GroupNames(items)[i]
  {
    PullGroups(t, items, origin, now, nextId);
    OwnedAt(items, origin, now, nextId);
    hide Pull, IdsBelow, KeptGroups, GroupNames, FindGroup, Owned, BundleGroups;
    var kept, groups := KeptGroups(t.groups, origin), Owned(BundleGroups(items, origin, now, nextId), origin);
    FindAt(groups, i);
    FindSkip(kept, groups, nextId + i);
  }

  lemma PullGroups(t: Tables, items: seq<HostItem>, origin: string, now: string, nextId: nat)
    requires IdsBelow(t, nextId)
    ensures Pull(t, items, origin, now, nextId).groups
      == KeptGroups(t.groups, origin) + Owned(BundleGroups(items, origin, now, nextId), origin)
    ensures forall k :: 0 <= k < |KeptGroups(t.groups, origin)| ==> KeptGroups(t.groups, origin)[k].id < nextId
  {
    KeptGroupsTwice(t.groups, origin);
    hide KeptGroups, Owned, BundleGroups, BundleHosts;
    var kept := KeptGroups(t.groups, origin);
    assert forall k :: 0 <= k < |kept| ==> kept[k] in kept;
  }

  /** The groups a pull inserts, by position. */
  lemma OwnedAt(items: seq<HostItem>, origin: string, now: string, nextId: nat)
    ensures var groups := Owned(BundleGroups(items, origin, now, nextId), origin);
      && |groups| == |GroupNames(items)| && GroupKeys(groups)
      && (forall i :: 0 <= i < |groups| ==> groups[i] == Group(nextId + i, GroupNames(items)[i], i, now, origin))
  {
    hide GroupNames;
  }

  /** The pulled rows, exported again, are the items. */
  lemma PullThenExport(t: Tables, items: seq<HostItem>, origin: string, now: string, nextId: nat, k: nat)
    requires IdsBelow(t, nextId) && k < |items|
    ensures var t' := Pull(t, items, origin, now, nextId);
      && |HostsOf(t'.hosts, origin)| == |items|
      && Export(t'.groups, HostsOf(t'.hosts, origin)[k]) == Clean(items[k])
      && (Export(t'.groups, HostsOf(t'.hosts, origin)[k]) == items[k] <==> items[k].color != "null")
  {
    SyncReplaces(t, origin, BundleGroups(items, origin, now, nextId), BundleHosts(items, now, nextId));
    PulledGroupName(t, items, origin, now, nextId, k);
    hide Sync, GroupName, BundleGroups, GroupNames, IndexOf;
  }

  /** The groups of the origin are the named groups of the items, each once, numbered in order. */
  lemma PulledGroups(t: Tables, items: seq<HostItem>, origin: string, now: string, nextId: nat)
    ensures var groups := GroupsWith(Pull(t, items, origin, now, nextId).groups, origin);
      && (forall i, j :: 0 <= i < j < |groups| ==> groups[i].name != groups[j].name && groups[i].id != groups[j].id)
      && (forall i :: 0 <= i < |groups| ==>
            && groups[i].sortOrder == i && Uses(items, groups[i].name)
            && groups[i].createdAt == now && groups[i].origin == origin && groups[i].id == nextId + i)
  {
    GroupNamesExact(items);
    SyncReplaces(t, origin, BundleGroups(items, origin, now, nextId), BundleHosts(items, now, nextId));
    OwnedAt(items, origin, now, nextId);
    hide Sync, BundleHosts, BundleGroups, Owned, GroupNames, GroupsWith, Uses;
    var names := GroupNames(items);
    assert forall i :: 0 <= i < |names| ==> names[i] in names;
  }

  /** The columns of a pulled host: the fields of its item, the time of the pull, and NULL for what the item leaves open. */
  lemma PulledRow(t: Tables, items: seq<HostItem>, origin: string, now: string, nextId: nat, k: nat)
    requires k < |items|
    ensures var rows := HostsOf(Pull(t, items, origin, now, nextId).hosts, origin);
      && |rows| == |items|
      && var item, row := items[k], rows[k];
         && row.title == item.title && row.hostname == item.hostname && row.port == item.port
         && row.username == item.username && row.authMethod == item.authMethod && row.tags == item.tags
         && row.createdAt == now && row.origin == origin && row.id == nextId + |GroupNames(items)| + k
         && (row.groupId == None <==> item.group == "")
         && row.keyPath == (if item.keyPath == "" then None else Some(item.keyPath))
         && row.color == (if item.color == "" || item.color == "null" then None else Some(item.color))
  {
    SyncReplaces(t, origin, BundleGroups(items, origin, now, nextId), BundleHosts(items, now, nextId));
    hide Sync, GroupNames, IndexOf, BundleGroups, HostsOf;
  }

  /** An empty tag list does not travel; nothing else is lost on the wire. */
  lemma WireLosesEmptyTags(item: HostItem)
    ensures Wire(item).tags != Some([]) && Wire(item) == item.(tags := Wire(item).tags)
    ensures Wire(item) == item <==> item.tags != Some([])
    ensures item.tags == Some([]) ==> Wire(item).tags == None
  {}

  /** The first item of a group. */
  function FirstUse(items: seq<HostItem>, name: string): (k: nat)
    requires Uses(items, name)
    ensures k < |items| && items[k].group == name && forall j :: 0 <= j < k ==> items[j].group != name
  {
    if items[0].group == name then 0
    else
      assert exists k :: 0 <= k < |items[1..]| && items[1..][k].group == name by {
        var k :| 0 <= k < |items| && items[k].group == name;
        assert items[1..][k - 1].group == name;
      }
      var r := FirstUse(items[1..], name);
      assert forall j :: 0 < j < r + 1 ==> items[j] == items[1..][j - 1];
      1 + r
  }

  /** Groups stand in the order of their first use. */
  lemma {:induction false} GroupNamesInOrder(items: seq<HostItem>, i: nat, j: nat)
    requires i < j < |GroupNames(items)|
    ensures var names := GroupNames(items);
      Uses(items, names[i]) && Uses(items, names[j]) && FirstUse(items, names[i]) < FirstUse(items, names[j])
    decreases |items|
  {
    var n := |items| - 1;
    var fewer := items[..n];
    var names, before := GroupNames(items), GroupNames(fewer);
    GroupNamesExact(items);
    GroupNamesExact(fewer);
    assert names[i] in names && names[j] in names && names[i] == before[i];
    assert names[i] in before;
    SameFirstUse(items, names[i]);
    if j < |before| {
      assert names[j] == before[j] && names[j] in before;
      GroupNamesInOrder(fewer, i, j);
      SameFirstUse(items, names[j]);
    } else {
      assert names[j] !in before;
      assert forall k :: 0 <= k < n ==> fewer[k].group != names[j];
      assert forall k :: 0 <= k < n ==> items[k] == fewer[k];
    }
  }

  lemma SameFirstUse(items: seq<HostItem>, name: string)
    requires items != [] && Uses(items[..|items| - 1], name)
    ensures Uses(items, name) && FirstUse(items, name) == FirstUse(items[..|items| - 1], name) < |items| - 1
  {
    var fewer := items[..|items| - 1];
    var k := FirstUse(fewer, name);
    assert items[k].group == name;
    var r := FirstUse(items, name);
    assert forall j :: 0 <= j < |fewer| ==> fewer[j] == items[j];
  }

  /** What a pull shows of an origin: its hosts by their fields, its groups by name. */
  function Shown(t: Tables, origin: string): (seq<HostItem>, seq<string>) {
    (Exports(t.groups, HostsOf(t.hosts, origin)), Names(GroupsWith(t.groups, origin)))
  }

  function Names(groups: seq<Group>): seq<string> {
    seq(|groups|, i requires 0 <= i < |groups| => groups[i].name)
  }

  function Cleaned(items: seq<HostItem>): seq<HostItem> {
    seq(|items|, i requires 0 <= i < |items| => Clean(items[i]))
  }

  lemma PulledNames(t: Tables, items: seq<HostItem>, origin: string, now: string, nextId: nat)
    ensures Names(GroupsWith(Pull(t, items, origin, now, nextId).groups, origin)) == GroupNames(items)
  {
    SyncReplaces(t, origin, BundleGroups(items, origin, now, nextId), BundleHosts(items, now, nextId));
    OwnedAt(items, origin, now, nextId);
    hide Sync, GroupNames, BundleHosts, BundleGroups, Owned, GroupsWith;
  }

  /** A pull shows the bundle, whatever was there before. */
  lemma PullShows(t: Tables, items: seq<HostItem>, origin: string, now: string, nextId: nat)
    requires IdsBelow(t, nextId)
    ensures Shown(Pull(t, items, origin, now, nextId), origin) == (Cleaned(items), GroupNames(items))
  {
    var t' := Pull(t, items, origin, now, nextId);
    PulledNames(t, items, origin, now, nextId);
    var rows := HostsOf(t'.hosts, origin);
    hide Pull, HostsOf, GroupsWith, GroupNames, Export, Clean;
    PullCount(t, items, origin, now, nextId);
    forall k | 0 <= k < |items|
      ensures Export(t'.groups, rows[k]) == Clean(items[k])
    {
      PullThenExport(t, items, origin, now, nextId, k);
    }
    assert Exports(t'.groups, rows) == Cleaned(items);
  }

  lemma PullCount(t: Tables, items: seq<HostItem>, origin: string, now: string, nextId: nat)
    ensures |HostsOf(Pull(t, items, origin, now, nextId).hosts, origin)| == |items|
  {
    SyncReplaces(t, origin, BundleGroups(items, origin, now, nextId), BundleHosts(items, now, nextId));
  }

  /** Pulling the same bundle again changes nothing but ids and times. */
  lemma PullTwice(t: Tables, items: seq<HostItem>, origin: string, now: string, later: string, nextId: nat,
                  laterId: nat)
    requires IdsBelow(t, nextId) && IdsBelow(Pull(t, items, origin, now, nextId), laterId)
    ensures var once := Pull(t, items, origin, now, nextId);
      var twice := Pull(once, items, origin, later, laterId);
      && Shown(twice, origin) == Shown(once, origin)
      && KeptHosts(twice.hosts, origin) == KeptHosts(t.hosts, origin)
      && KeptGroups(twice.groups, origin) == KeptGroups(t.groups, origin)
  {
    var once := Pull(t, items, origin, now, nextId);
    PullShows(t, items, origin, now, nextId);
    PullShows(once, items, origin, later, laterId);
    PullKeepsOthers(t, items, origin, now, nextId);
    PullKeepsOthers(once, items, origin, later, laterId);
    hide Pull, Shown;
  }

  lemma PullKeepsOthers(t: Tables, items: seq<HostItem>, origin: string, now: string, nextId: nat)
    ensures var t' := Pull(t, items, origin, now, nextId);
      && KeptHosts(t'.hosts, origin) == KeptHosts(t.hosts, origin)
      && KeptGroups(t'.groups, origin) == KeptGroups(t.groups, origin)
  {
    SyncReplaces(t, origin, BundleGroups(items, origin, now, nextId), BundleHosts(items, now, nextId));
  }

  /** Pushed from one machine and pulled on another, the selected hosts keep their exported fields and group names. */
  lemma PushThenPull(from: Tables, ids: seq<nat>, into: Tables, origin: string, now: string, nextId: nat, k: nat)
    requires IdsBelow(into, nextId) && k < |Selected(from.hosts, ids)|
    ensures var rows := Selected(from.hosts, ids);
      var items := seq(|rows|, i requires 0 <= i < |rows| => Wire(Export(from.groups, rows[i])));
      var t' := Pull(into, items, origin, now, nextId);
      && |HostsOf(t'.hosts, origin)| == |rows|
      && Export(t'.groups, HostsOf(t'.hosts, origin)[k]) == Clean(Wire(Export(from.groups, rows[k])))
      && (rows[k].color != Some("null") ==>
            Export(t'.groups, HostsOf(t'.hosts, origin)[k]) == Wire(Export(from.groups, rows[k])))
  {
    var rows := Selected(from.hosts, ids);
    var items := seq(|rows|, i requires 0 <= i < |rows| => Wire(Export(from.groups, rows[i])));
    PullThenExport(into, items, origin, now, nextId, k);
  }

  lemma {:induction false} FindKept(groups: seq<Group>, origin: string, id: nat)
    requires GroupKeys(groups)
    ensures FindGroup(KeptGroups(groups, origin), id) ==
      var g := FindGroup(groups, id);
      if g.Some? && g.value.origin != origin then g else None
    decreases |groups|
  {
    if groups != [] {
      var n := |groups| - 1;
      FindKept(groups[..n], origin, id);
      FindSnoc(groups[..n], groups[n], id);
      assert groups[..n] + [groups[n]] == groups;
      FindSnoc(KeptGroups(groups[..n], origin), groups[n], id);
      FindIsThere(groups[..n], id);
      assert KeptGroups(groups[..n], origin) + [] == KeptGroups(groups[..n], origin);
    }
  }

  lemma {:induction false} FindIsThere(groups: seq<Group>, id: nat)
    ensures FindGroup(groups, id).Some? ==> FindGroup(groups, id).value in groups && FindGroup(groups, id).value.id == id
    decreases |groups|
  {
    if groups != [] { FindIsThere(groups[1..], id); }
  }

  lemma {:induction false} FindSnoc(groups: seq<Group>, g: Group, id: nat)
    ensures FindGroup(groups + [g], id) ==
      var found := FindGroup(groups, id);
      if found.Some? then found else if g.id == id then Some(g) else None
    decreases |groups|
  {
    if groups == [] {
      assert groups + [g] == [g];
    } else {
      FindSnoc(groups[1..], g, id);
      assert (groups + [g])[1..] == groups[1..] + [g];
    }
  }

  lemma {:induction false} FindAbsent(kept: seq<Group>, more: seq<Group>, id: nat)
    requires forall g :: g in more ==> g.id != id
    ensures FindGroup(kept + more, id) == FindGroup(kept, id)
    decreases |kept| + |more|
  {
    if kept != [] {
      FindAbsent(kept[1..], more, id);
      assert (kept + more)[1..] == kept[1..] + more;
    } else if more != [] {
      assert more[0] in more && kept + more == more;
      assert [] + more[1..] == more[1..];
      FindAbsent([], more[1..], id);
    } else {
      assert kept + more == [];
    }
  }

  /**
   The rows of other origins stay, but a host among them that sits in a group of the pulled origin loses
   that group: the group comes back under a fresh id.  Its group name survives in exactly the other cases.
   */
  lemma OthersKeepGroupExactly(t: Tables, items: seq<HostItem>, origin: string, now: string, nextId: nat, row: Row)
    requires DistinctIds(t) && IdsBelow(t, nextId) && row in t.hosts && row.origin != origin
    requires row.groupId.Some? ==> row.groupId.value < nextId
    ensures var t' := Pull(t, items, origin, now, nextId);
      GroupName(t'.groups, row.groupId) == GroupName(t.groups, row.groupId) <==>
        !(row.groupId.Some? && FindGroup(t.groups, row.groupId.value).Some?
          && FindGroup(t.groups, row.groupId.value).value.origin == origin
          && FindGroup(t.groups, row.groupId.value).value.name != "")
  {
    var groups := BundleGroups(items, origin, now, nextId);
    if row.groupId.Some? {
      FindAbsent(KeptGroups(t.groups, origin), Owned(groups, origin), row.groupId.value);
      FindKept(t.groups, origin, row.groupId.value);
    }
  }

  /** Every pull keeps the primary keys distinct. */
  lemma PullKeepsIds(t: Tables, items: seq<HostItem>, origin: string, now: string, nextId: nat)
    requires DistinctIds(t) && IdsBelow(t, nextId)
    ensures var t' := Pull(t, items, origin, now, nextId);
      DistinctIds(t') && IdsBelow(t', nextId + |GroupNames(items)| + |items|)
  {
    KeptIds(t, origin, nextId);
    BundleIds(items, origin, now, nextId);
    var rows, owned := ToRows(BundleHosts(items, now, nextId), origin), Owned(BundleGroups(items, origin, now,
        nextId), origin);
    JoinIds(KeptHosts(t.hosts, origin), KeptGroups(t.groups, origin), rows, owned, nextId);
    hide IdsBelow, DistinctIds, KeptHosts, KeptGroups, ToRows, Owned, BundleHosts, BundleGroups;
  }

  lemma KeptIds(t: Tables, origin: string, bound: nat)
    requires DistinctIds(t) && IdsBelow(t, bound)
    ensures DistinctIds(Remove(t, origin)) && IdsBelow(Remove(t, origin), bound)
  {
    KeptDistinct(t.hosts, t.groups, origin);
    KeptTwice(t.hosts, origin);
    KeptGroupsTwice(t.groups, origin);
    hide KeptHosts, KeptGroups;
  }

  lemma JoinIds(hosts: seq<Row>, groups: seq<Group>, rows: seq<Row>, owned: seq<Group>, bound: nat)
    requires DistinctIds(Tables(hosts, groups)) && IdsBelow(Tables(hosts, groups), bound)
    requires forall i :: 0 <= i < |rows| ==> rows[i].id == bound + |owned| + i
    requires forall i :: 0 <= i < |owned| ==> owned[i].id == bound + i
    ensures DistinctIds(Tables(hosts + rows, groups + owned))
    ensures IdsBelow(Tables(hosts + rows, groups + owned), bound + |owned| + |rows|)
  {
    assert forall i :: 0 <= i < |hosts| ==> hosts[i] in hosts;
    assert forall i :: 0 <= i < |groups| ==> groups[i] in groups;
  }

  lemma BundleIds(items: seq<HostItem>, origin: string, now: string, nextId: nat)
    ensures var rows := ToRows(BundleHosts(items, now, nextId), origin);
      |rows| == |items| && forall i :: 0 <= i < |rows| ==> rows[i].id == nextId + |GroupNames(items)| + i
    ensures var groups := Owned(BundleGroups(items, origin, now, nextId), origin);
      |groups| == |GroupNames(items)| && forall i :: 0 <= i < |groups| ==> groups[i].id == nextId + i
  {
    hide GroupNames, IndexOf;
  }

  lemma KeptDistinct(hosts: seq<Row>, groups: seq<Group>, origin: string)
    requires DistinctIds(Tables(hosts, groups))
    ensures DistinctIds(Tables(KeptHosts(hosts, origin), KeptGroups(groups, origin)))
  {
    KeptHostsDistinct(hosts, origin);
    KeptGroupsDistinct(groups, origin);
  }

  lemma {:induction false} KeptHostsDistinct(hosts: seq<Row>, origin: string)
    requires HostKeys(hosts)
    ensures HostKeys(KeptHosts(hosts, origin))
    decreases |hosts|
  {
    if hosts != [] {
      var n := |hosts| - 1;
      KeptHostsDistinct(hosts[..n], origin);
      KeptTwice(hosts[..n], origin);
      assert forall h :: h in hosts[..n] ==> h.id != hosts[n].id;
    }
  }

  lemma {:induction false} KeptGroupsDistinct(groups: seq<Group>, origin: string)
    requires GroupKeys(groups)
    ensures GroupKeys(KeptGroups(groups, origin))
    decreases |groups|
  {
    if groups != [] {
      var n := |groups| - 1;
      KeptGroupsDistinct(groups[..n], origin);
      KeptGroupsTwice(groups[..n], origin);
      assert forall g :: g in groups[..n] ==> g.id != groups[n].id;
    }
  }

  // ----- references -----

  /** The origin that marks what a subscription brought in. */
  function Origin(registry: string, bundle: string): string {
    "registry:" + registry + "/" + bundle
  }

  /**
   One subscription's origin equals another's in exactly three ways; in the last two a slash moves
   between the names.
   */
  lemma OriginsEqualExactly(r: string, b: string, s: string, c: string)
    ensures Origin(r, b) == Origin(s, c) <==>
      || (r == s && b == c)
      || (r + "/" <= s && b == s[|r| + 1..] + "/" + c)
      || (s + "/" <= r && c == r[|s| + 1..] + "/" + b)
  {
    if |r| == |s| {
      OriginsAligned(r, b, s, c);
    } else if |r| < |s| {
      OriginsNested(r, b, s, c);
    } else {
      OriginsNested(s, c, r, b);
    }
  }

  lemma OriginParts(r: string, b: string)
    ensures var x, n := Origin(r, b), |"registry:"|;
      |x| == n + |r| + 1 + |b| && x[..n] == "registry:" && x[n..n + |r|] == r && x[n + |r|] == '/'
          && x[n + |r| + 1..] == b
  {}

  lemma OriginsAligned(r: string, b: string, s: string, c: string)
    requires |r| == |s|
    ensures Origin(r, b) == Origin(s, c) <==> r == s && b == c
  {
    OriginParts(r, b);
    OriginParts(s, c);
    hide Origin;
  }

  lemma OriginsNested(r: string, b: string, s: string, c: string)
    requires |r| < |s|
    ensures Origin(r, b) == Origin(s, c) <==> r + "/" <= s && b == s[|r| + 1..] + "/" + c
  {
    if r + "/" <= s && b == s[|r| + 1..] + "/" + c {
      assert s == r + "/" + s[|r| + 1..];
      assert Origin(r, b) == Origin(s, c);
    }
    if Origin(r, b) == Origin(s, c) {
      OriginParts(r, b);
      OriginParts(s, c);
      var x, n := Origin(r, b), |"registry:"|;
      assert s == x[n..n + |s|];
      assert s[..|r|] == x[n..n + |r|] && s[|r|] == x[n + |r|];
      assert r + "/" == s[..|r| + 1];
      assert b == x[n + |r| + 1..n + |s|] + x[n + |s|..];
      assert x[n + |s|..] == "/" + c;
      assert x[n + |r| + 1..n + |s|] == s[|r| + 1..];
    }
  }

  /**
   Subscriptions at two registries never share an origin, whatever the bundles, exactly when the
   registry names differ and neither continues the other after a slash.
   */
  lemma OriginsNeverClashExactly(r: string, s: string)
    ensures (forall b, c :: Origin(r, b) != Origin(s, c)) <==> r != s && !(r + "/" <= s) && !(s + "/" <= r)
  {
    if r == s {
      assert Origin(r, "") == Origin(s, "");
    } else if r + "/" <= s {
      OriginsEqualExactly(r, s[|r| + 1..] + "/" + "", s, "");
      assert Origin(r, s[|r| + 1..] + "/" + "") == Origin(s, "");
    } else if s + "/" <= r {
      OriginsEqualExactly(r, "", s, r[|s| + 1..] + "/" + "");
      assert Origin(r, "") == Origin(s, r[|s| + 1..] + "/" + "");
    } else {
      forall b, c
        ensures Origin(r, b) != Origin(s, c)
      {
        OriginsEqualExactly(r, b, s, c);
      }
    }
  }

  /** With registry names free of slashes, equal origins mean the same subscription. */
  lemma OriginsDiffer(r: string, b: string, s: string, c: string)
    requires '/' !in r && '/' !in s && Origin(r, b) == Origin(s, c)
    ensures r == s && b == c
  {
    OriginsEqualExactly(r, b, s, c);
    ContinuesWithSlash(r, s);
    ContinuesWithSlash(s, r);
  }

  lemma ContinuesWithSlash(r: string, s: string)
    ensures r + "/" <= s ==> '/' in s
  {
    if r + "/" <= s { assert s[|r|] == (r + "/")[|r|]; }
  }

  /** An input on which they clash. */
  lemma OriginsClash()
    ensures Origin("a/b", "c/d") == Origin("a", "b/c/d")
  {
    assert Origin("a/b", "c/d") == "registry:a/b/c/d" == Origin("a", "b/c/d");
  }

  /** Split at the first slash. */
  method ParseBundleRef(reference: string) returns (r: Option<(string, string)>)
    ensures r.Some? <==> '/' in reference
    ensures r.Some? ==> '/' !in r.value.0 && r.value.0 + "/" + r.value.1 == reference
  {
    for i := 0 to |reference|
      invariant '/' !in reference[..i]
    {
      if reference[i] == '/' {
        return Some((reference[..i], reference[i + 1..]));
      }
    }
    assert reference[..|reference|] == reference;
    r := None;
  }
}
