/**
 The registry's tables and its SQL, and the history they stand for.
 */
module RegistryTables {
  import opened Wrappers
  import opened Timestamps

  datatype BundleName = BundleName(namespace: string, name: string)

  /** `pushedAt` is text; `rowid` is SQLite's hidden key. */
  datatype Version = Version(rowid: nat, bundleId: nat, tag: string, payload: string, pushedAt: string)

  /** Versions stand in rowid order, as in the table's B-tree. */
  datatype Tables = Tables(namespaces: set<string>, bundles: map<BundleName, nat>, versions: seq<Version>, nextId: nat)

  const EMPTY := Tables({}, map[], [], 0)

  // ----- SQL -----

  /** The rows of one bundle: the join of versions and bundles, in rowid order. */
  function Rows(t: Tables, b: BundleName): seq<Version> {
    if b in t.bundles then OfBundle(t.versions, t.bundles[b]) else []
  }

  function OfBundle(versions: seq<Version>, id: nat): seq<Version> {
    if versions == [] then []
    else
      var n := |versions| - 1;
      OfBundle(versions[..n], id) + if versions[n].bundleId == id then [versions[n]] else []
  }

  /** ORDER BY pushed_at DESC, rowid DESC. */
  predicate Before(x: Version, y: Version) {
    Less(y.pushedAt, x.pushedAt) || (x.pushedAt == y.pushedAt && x.rowid > y.rowid)
  }

  function Insert(row: Version, sorted: seq<Version>): seq<Version> {
    if sorted == [] || Before(row, sorted[0]) then [row] + sorted else [sorted[0]] + Insert(row, sorted[1..])
  }

  function OrderByNewest(rows: seq<Version>): seq<Version> {
    if rows == [] then [] else Insert(rows[0], OrderByNewest(rows[1..]))
  }

  /** A new row's rowid: one more than the largest in the table, so a deleted largest is used again. */
  function NextRowid(versions: seq<Version>): nat {
    if versions == [] then 1 else versions[|versions| - 1].rowid + 1
  }

  // ----- operations -----

  function CreateNamespace(t: Tables, name: string): Option<Tables> {
    if name in t.namespaces then None else Some(t.(namespaces := t.namespaces + {name}))
  }

  predicate HasTag(versions: seq<Version>, id: nat, tag: string) {
    exists v :: v in versions && v.bundleId == id && v.tag == tag
  }

  /** One transaction: None means that nothing was stored. */
  function Push(t: Tables, b: BundleName, tag: string, payload: string, now: Time): Option<Tables> {
    var found := b in t.bundles;
    if !found && b.namespace !in t.namespaces then None
    else
      var id := if found then t.bundles[b] else t.nextId;
      if HasTag(t.versions, id, tag) then None
      else Some(Tables(t.namespaces, t.bundles[b := id],
                       t.versions + [Version(NextRowid(t.versions), id, tag, payload, Format(now))],
                       if found then t.nextId else t.nextId + 1))
  }

  function Without(versions: seq<Version>, id: nat, tag: string): seq<Version> {
    if versions == [] then []
    else
      var n := |versions| - 1;
      Without(versions[..n], id, tag)
        + if versions[n].bundleId == id && versions[n].tag == tag then [] else [versions[n]]
  }

  function DeleteVersion(t: Tables, b: BundleName, tag: string): Option<Tables> {
    if b in t.bundles && HasTag(t.versions, t.bundles[b], tag)
    then Some(t.(versions := Without(t.versions, t.bundles[b], tag)))
    else None
  }

  datatype TagInfo = TagInfo(tag: string, pushedAt: string)

  datatype Pulled = Pulled(tag: string, payload: string, pushedAt: string)

  function Tags(rows: seq<Version>): seq<TagInfo> {
    seq(|rows|, i requires 0 <= i < |rows| => TagInfo(rows[i].tag, rows[i].pushedAt))
  }

  function ListTags(t: Tables, b: BundleName): seq<TagInfo> {
    Tags(OrderByNewest(Rows(t, b)))
  }

  /** The first row with the tag; the unique constraint leaves at most one. */
  function Tagged(rows: seq<Version>, tag: string): Option<Version> {
    if rows == [] then None else if rows[0].tag == tag then Some(rows[0]) else Tagged(rows[1..], tag)
  }

  function Pull(t: Tables, b: BundleName, tag: string): Option<Pulled> {
    if tag == "" || tag == "latest" then
      var rows := OrderByNewest(Rows(t, b));
      if rows == [] then None else Some(Pulled(rows[0].tag, rows[0].payload, rows[0].pushedAt))
    else
      var row := Tagged(Rows(t, b), tag);
      if row == None then None else Some(Pulled(row.value.tag, row.value.payload, row.value.pushedAt))
  }

  // ----- the constraints -----

  ghost predicate Ascending(rows: seq<Version>) {
    forall i, j :: 0 <= i < j < |rows| ==> rows[i].rowid < rows[j].rowid
  }

  ghost predicate UniqueTags(rows: seq<Version>) {
    forall i, j :: 0 <= i < j < |rows| && rows[i].bundleId == rows[j].bundleId ==> rows[i].tag != rows[j].tag
  }

  ghost predicate Consistent(t: Tables) {
    && Ascending(t.versions) && UniqueTags(t.versions)
    && (forall b :: b in t.bundles ==> t.bundles[b] < t.nextId && b.namespace in t.namespaces)
    && (forall b, c :: b in t.bundles && c in t.bundles && t.bundles[b] == t.bundles[c] ==> b == c)
    && (forall v :: v in t.versions ==> v.bundleId < t.nextId)
  }

  // ----- the history -----

  datatype Event =
    | Created(namespace: string)
    | Pushed(bundle: BundleName, tag: string, payload: string, now: Time)
    | Deleted(bundle: BundleName, tag: string)

  /** A call that fails leaves the tables as they are. */
  function Next(t: Tables, e: Event): Tables {
    var r := match e
      case Created(name) => CreateNamespace(t, name)
      case Pushed(b, tag, payload, now) => Push(t, b, tag, payload, now)
      case Deleted(b, tag) => DeleteVersion(t, b, tag);
    if r.Some? then r.value else t
  }

  function Run(events: seq<Event>): Tables {
    if events == [] then EMPTY else Next(Run(events[..|events| - 1]), events[|events| - 1])
  }

  datatype Entry = Entry(tag: string, payload: string, now: Time)

  function Drop(log: seq<Entry>, tag: string): seq<Entry> {
    if log == [] then []
    else
      var n := |log| - 1;
      Drop(log[..n], tag) + if log[n].tag == tag then [] else [log[n]]
  }

  predicate HasPush(log: seq<Entry>, tag: string) {
    exists p :: p in log && p.tag == tag
  }

  /** The pushes of one bundle that were accepted and not deleted since, oldest first. */
  function Surviving(events: seq<Event>, b: BundleName): seq<Entry> {
    if events == [] then []
    else
      var n := |events| - 1;
      var log := Surviving(events[..n], b);
      match events[n]
      case Created(_) => log
      case Pushed(c, tag, payload, now) =>
        if c == b && Created(b.namespace) in events[..n] && !HasPush(log, tag) then log + [Entry(tag, payload,
            now)] else log
      case Deleted(c, tag) => if c == b then Drop(log, tag) else log
  }

  function Newest(log: seq<Entry>): (tags: seq<TagInfo>)
    ensures |tags| == |log|
  {
    if log == [] then []
    else
      var n := |log| - 1;
      [TagInfo(log[n].tag, Format(log[n].now))] + Newest(log[..n])
  }

  /** No push is timed before an earlier surviving one. */
  ghost predicate InOrder(log: seq<Entry>) {
    forall i, j :: 0 <= i < j < |log| ==> !Earlier(log[j].now, log[i].now)
  }

  ghost predicate ValidTimes(events: seq<Event>) {
    forall k :: 0 <= k < |events| && events[k].Pushed? ==> Valid(events[k].now)
  }

  /** The clock never goes back. */
  ghost predicate ClockForward(events: seq<Event>) {
    forall i, j :: 0 <= i < j < |events| && events[i].Pushed? && events[j].Pushed? ==>
      !Earlier(events[j].now, events[i].now)
  }
}
