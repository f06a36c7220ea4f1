/**
 The tables always hold the history: what a bundle lists is its surviving pushes.
 */
module RegistryHistory {
  import opened Wrappers
  import opened Timestamps
  import opened RegistryTables

  // ----- ORDER BY -----

  ghost predicate Ordered(rows: seq<Version>) {
    forall i, j :: 0 <= i < j < |rows| ==> !Before(rows[j], rows[i])
  }

  lemma {:induction false} LessTransitive(a: string, b: string, c: string)
    requires Less(a, b) && Less(b, c)
    ensures Less(a, c)
    decreases |a|
  {
    if a != "" && a[0] == b[0] == c[0] { LessTransitive(a[1..], b[1..], c[1..]); }
  }

  lemma BeforeTransitive(x: Version, y: Version, z: Version)
    requires Before(x, y) && Before(y, z)
    ensures Before(x, z)
  {
    if Less(y.pushedAt, x.pushedAt) && Less(z.pushedAt, y.pushedAt) {
      LessTransitive(z.pushedAt, y.pushedAt, x.pushedAt);
    }
  }

  lemma {:induction false} BeforeIrreflexive(x: Version, y: Version)
    requires Before(x, y)
    ensures !Before(y, x)
  {
    if Before(y, x) {
      BeforeTransitive(x, y, x);
      NotLess(x.pushedAt);
    }
  }

  lemma {:induction false} InsertOrdered(row: Version, sorted: seq<Version>)
    requires Ordered(sorted)
    ensures Ordered(Insert(row, sorted))
    ensures multiset(Insert(row, sorted)) == multiset(sorted) + multiset{row}
    decreases |sorted|
  {
    if sorted == [] {
    } else if Before(row, sorted[0]) {
      forall k | 0 <= k < |sorted|
        ensures !Before(sorted[k], row)
      {
        if Before(sorted[k], row) {
          BeforeTransitive(sorted[k], row, sorted[0]);
          if k == 0 { BeforeIrreflexive(sorted[0], sorted[0]); }
        }
      }
    } else {
      InsertOrdered(row, sorted[1..]);
      assert sorted == [sorted[0]] + sorted[1..];
      var rest := Insert(row, sorted[1..]);
      forall k | 0 <= k < |rest|
        ensures !Before(rest[k], sorted[0])
      {
        assert rest[k] in multiset(sorted[1..]) + multiset{row};
        assert rest[k] == row || rest[k] in sorted[1..];
      }
    }
  }

  /** ORDER BY lists every row, each before those it should precede. */
  lemma {:induction false} OrderByOrders(rows: seq<Version>)
    ensures Ordered(OrderByNewest(rows)) && multiset(OrderByNewest(rows)) == multiset(rows)
    decreases |rows|
  {
    if rows != [] {
      OrderByOrders(rows[1..]);
      InsertOrdered(rows[0], OrderByNewest(rows[1..]));
      assert rows == [rows[0]] + rows[1..];
    }
  }

  function Reverse(rows: seq<Version>): (r: seq<Version>)
    ensures |r| == |rows|
  {
    if rows == [] then [] else Reverse(rows[1..]) + [rows[0]]
  }

  lemma {:induction false} ReverseAt(rows: seq<Version>, k: nat)
    requires k < |rows|
    ensures Reverse(rows)[k] == rows[|rows| - 1 - k]
    decreases |rows|
  {
    if k < |rows| - 1 { ReverseAt(rows[1..], k); }
  }

  lemma {:induction false} InsertLast(row: Version, sorted: seq<Version>)
    requires forall k :: 0 <= k < |sorted| ==> !Before(row, sorted[k])
    ensures Insert(row, sorted) == sorted + [row]
    decreases |sorted|
  {
    if sorted != [] { InsertLast(row, sorted[1..]); }
  }

  /** Text order agrees with rowid order. */
  ghost predicate TextInOrder(rows: seq<Version>) {
    forall i, j :: 0 <= i < j < |rows| ==> !Less(rows[j].pushedAt, rows[i].pushedAt)
  }

  lemma {:induction false} InOrderReverses(rows: seq<Version>)
    requires Ascending(rows) && TextInOrder(rows)
    ensures OrderByNewest(rows) == Reverse(rows)
    decreases |rows|
  {
    if rows != [] {
      InOrderReverses(rows[1..]);
      var rest := Reverse(rows[1..]);
      forall k | 0 <= k < |rest|
        ensures !Before(rows[0], rest[k])
      {
        ReverseAt(rows[1..], k);
      }
      InsertLast(rows[0], rest);
    }
  }

  /** The newest-first query is the table read backwards exactly when no later row has an earlier stamp. */
  lemma OrderByIsReverseExactly(rows: seq<Version>)
    requires Ascending(rows)
    ensures OrderByNewest(rows) == Reverse(rows) <==> TextInOrder(rows)
  {
    if TextInOrder(rows) { InOrderReverses(rows); }
    if OrderByNewest(rows) == Reverse(rows) {
      OrderByOrders(rows);
      forall i, j | 0 <= i < j < |rows|
        ensures !Less(rows[j].pushedAt, rows[i].pushedAt)
      {
        ReverseAt(rows, |rows| - 1 - i);
        ReverseAt(rows, |rows| - 1 - j);
      }
    }
  }

  // ----- deleting and selecting keep the order of rows -----

  lemma LastIsApart(versions: seq<Version>)
    requires versions != [] && Ascending(versions) && UniqueTags(versions)
    ensures var last := versions[|versions| - 1];
      forall v :: v in versions[..|versions| - 1] ==>
        (v in versions && v.rowid < last.rowid && (v.bundleId == last.bundleId ==> v.tag != last.tag))
  {}

  lemma {:induction false} WithoutKeeps(versions: seq<Version>, id: nat, tag: string)
    requires Ascending(versions) && UniqueTags(versions)
    ensures var r := Without(versions, id, tag);
      Ascending(r) && UniqueTags(r) && forall v :: v in r ==> v in versions
    decreases |versions|
  {
    if versions != [] {
      var n := |versions| - 1;
      WithoutKeeps(versions[..n], id, tag);
      LastIsApart(versions);
    }
  }

  lemma {:induction false} OfBundleHas(versions: seq<Version>, id: nat)
    ensures forall v :: v in OfBundle(versions, id) <==> v in versions && v.bundleId == id
    decreases |versions|
  {
    if versions != [] {
      var n := |versions| - 1;
      OfBundleHas(versions[..n], id);
      assert versions == versions[..n] + [versions[n]];
    }
  }

  lemma {:induction false} OfBundleKeeps(versions: seq<Version>, id: nat)
    requires Ascending(versions) && UniqueTags(versions)
    ensures var r := OfBundle(versions, id);
      && Ascending(r) && UniqueTags(r)
      && forall v :: v in r <==> v in versions && v.bundleId == id
    decreases |versions|
  {
    if versions != [] {
      var n := |versions| - 1;
      OfBundleKeeps(versions[..n], id);
      OfBundleHas(versions[..n], id);
      LastIsApart(versions);
    }
    OfBundleHas(versions, id);
  }

  lemma AppendNone(versions: seq<Version>)
    ensures versions + [] == versions
  {}

  lemma WithoutAppend(versions: seq<Version>, v: Version, id: nat, tag: string)
    ensures Without(versions + [v], id, tag)
      == Without(versions, id, tag) + if v.bundleId == id && v.tag == tag then [] else [v]
  {
    assert (versions + [v])[..|versions|] == versions;
  }

  lemma {:induction false} OfBundleWithout(versions: seq<Version>, id: nat, tag: string, of: nat)
    ensures OfBundle(Without(versions, id, tag), of)
      == if of == id then Without(OfBundle(versions, id), id, tag) else OfBundle(versions, of)
    decreases |versions|
  {
    if versions != [] {
      var n := |versions| - 1;
      var v, w, o := versions[n], Without(versions[..n], id, tag), OfBundle(versions[..n], id);
      OfBundleWithout(versions[..n], id, tag, of);
      hide OfBundle, Without;
      assert versions == versions[..n] + [v];
      WithoutAppend(versions[..n], v, id, tag);
      OfBundleAppend(versions[..n], v, of);
      OfBundleAppend(w, v, of);
      WithoutAppend(o, v, id, tag);
      AppendNone(w);
      AppendNone(o);
      AppendNone(OfBundle(versions[..n], of));
      AppendNone(OfBundle(w, of));
    }
  }

  lemma OfBundleAppend(versions: seq<Version>, v: Version, of: nat)
    ensures OfBundle(versions + [v], of) == OfBundle(versions, of) + if v.bundleId == of then [v] else []
  {
    assert (versions + [v])[..|versions|] == versions;
  }

  lemma {:induction false} OfBundleNone(versions: seq<Version>, of: nat)
    requires forall v :: v in versions ==> v.bundleId != of
    ensures OfBundle(versions, of) == []
    decreases |versions|
  {
    if versions != [] { OfBundleNone(versions[..|versions| - 1], of); }
  }

  // ----- rows stand for entries -----

  ghost predicate Stands(v: Version, e: Entry) {
    v.tag == e.tag && v.payload == e.payload && v.pushedAt == Format(e.now)
  }

  ghost predicate StandFor(rows: seq<Version>, log: seq<Entry>) {
    |rows| == |log| && forall k :: 0 <= k < |rows| ==> Stands(rows[k], log[k])
  }

  lemma {:induction false} DropStands(rows: seq<Version>, log: seq<Entry>, id: nat, tag: string)
    requires StandFor(rows, log) && forall v :: v in rows ==> v.bundleId == id
    ensures StandFor(Without(rows, id, tag), Drop(log, tag))
    decreases |rows|
  {
    if rows != [] {
      var n := |rows| - 1;
      DropStands(rows[..n], log[..n], id, tag);
      assert rows[n] in rows && Stands(rows[n], log[n]);
    }
  }

  lemma TagIsPush(versions: seq<Version>, id: nat, log: seq<Entry>, tag: string)
    requires Ascending(versions) && UniqueTags(versions) && StandFor(OfBundle(versions, id), log)
    ensures HasTag(versions, id, tag) <==> HasPush(log, tag)
  {
    OfBundleKeeps(versions, id);
    var rows := OfBundle(versions, id);
    if HasTag(versions, id, tag) {
      var v :| v in versions && v.bundleId == id && v.tag == tag;
      assert v in rows;
      var k :| 0 <= k < |rows| && rows[k] == v;
      assert Stands(rows[k], log[k]) && log[k] in log;
    }
    if HasPush(log, tag) {
      var p :| p in log && p.tag == tag;
      var k :| 0 <= k < |log| && log[k] == p;
      assert Stands(rows[k], log[k]) && rows[k] in rows;
    }
  }

  // ----- one step -----

  /** The tables satisfy the constraints and hold the history of every bundle. */
  ghost predicate Holds(t: Tables, events: seq<Event>) {
    && Consistent(t)
    && (forall name :: name in t.namespaces <==> Created(name) in events)
    && (forall b :: StandFor(Rows(t, b), Surviving(events, b)))
  }

  lemma PushConsistent(t: Tables, b: BundleName, tag: string, payload: string, now: Time)
    requires Consistent(t) && Push(t, b, tag, payload, now).Some?
    ensures Consistent(Push(t, b, tag, payload, now).value)
  {
    hide Format;
    var t' := Push(t, b, tag, payload, now).value;
    var v := t'.versions[|t.versions|];
    assert t'.versions == t.versions + [v];
    forall i | 0 <= i < |t.versions|
      ensures t.versions[i].rowid < v.rowid
      ensures t.versions[i].bundleId == v.bundleId ==> t.versions[i].tag != v.tag
    {
      assert t.versions[i] in t.versions;
    }
  }

  lemma PushRows(t: Tables, b: BundleName, tag: string, payload: string, now: Time, c: BundleName)
    requires Consistent(t) && Push(t, b, tag, payload, now).Some?
    ensures var t' := Push(t, b, tag, payload, now).value;
      Rows(t', c) == if c == b then Rows(t, b) + [t'.versions[|t.versions|]] else Rows(t, c)
  {
    hide Format;
    var t' := Push(t, b, tag, payload, now).value;
    var v := t'.versions[|t.versions|];
    if c in t'.bundles { OfBundleAppend(t.versions, v, t'.bundles[c]); }
    if b !in t.bundles { OfBundleNone(t.versions, t.nextId); }
  }

  lemma DeleteRows(t: Tables, b: BundleName, tag: string, c: BundleName)
    requires Consistent(t) && DeleteVersion(t, b, tag).Some?
    ensures var t' := DeleteVersion(t, b, tag).value;
      && Consistent(t')
      && Rows(t', c) == if c == b then Without(Rows(t, b), t.bundles[b], tag) else Rows(t, c)
  {
    WithoutKeeps(t.versions, t.bundles[b], tag);
    if c in t.bundles { OfBundleWithout(t.versions, t.bundles[b], tag, t.bundles[c]); }
  }

  lemma {:induction false} WithoutNone(versions: seq<Version>, id: nat, tag: string)
    requires forall k :: 0 <= k < |versions| ==> !(versions[k].bundleId == id && versions[k].tag == tag)
    ensures Without(versions, id, tag) == versions
    decreases |versions|
  {
    if versions != [] {
      var n := |versions| - 1;
      WithoutNone(versions[..n], id, tag);
      hide Without;
      WithoutAppend(versions[..n], versions[n], id, tag);
      assert versions == versions[..n] + [versions[n]];
    }
  }

  lemma StepHolds(t: Tables, events: seq<Event>, e: Event)
    requires Holds(t, events)
    ensures Holds(Next(t, e), events + [e])
  {
    var after := events + [e];
    var t' := Next(t, e);
    assert after[..|events|] == events;
    hide Surviving, Rows;
    forall b: BundleName
      ensures Consistent(t') && StandFor(Rows(t', b), Surviving(after, b))
    {
      match e
      case Created(_) => StepCreated(t, events, e, b);
      case Pushed(_, _, _, _) => StepPushed(t, events, e, b);
      case Deleted(_, _) => StepDeleted(t, events, e, b);
    }
    assert Consistent(t') by {
      assert StandFor(Rows(t', BundleName("", "")), Surviving(after, BundleName("", "")));
    }
    NamespacesAre(t, events, e);
  }

  lemma NamespacesAre(t: Tables, events: seq<Event>, e: Event)
    requires forall name :: name in t.namespaces <==> Created(name) in events
    ensures forall name :: name in Next(t, e).namespaces <==> Created(name) in events + [e]
  {
    hide HasTag, Format, Without;
  }

  lemma StepCreated(t: Tables, events: seq<Event>, e: Event, b: BundleName)
    requires Holds(t, events) && e.Created?
    ensures Consistent(Next(t, e)) && StandFor(Rows(Next(t, e), b), Surviving(events + [e], b))
  {
    assert (events + [e])[..|events|] == events;
    assert StandFor(Rows(t, b), Surviving(events, b));
    hide StandFor, OfBundle;
  }

  lemma StandSnoc(rows: seq<Version>, log: seq<Entry>, v: Version, p: Entry)
    requires StandFor(rows, log) && Stands(v, p)
    ensures StandFor(rows + [v], log + [p])
  {
    hide Stands;
  }

  lemma StepPushed(t: Tables, events: seq<Event>, e: Event, b: BundleName)
    requires Holds(t, events) && e.Pushed?
    ensures Consistent(Next(t, e)) && StandFor(Rows(Next(t, e), b), Surviving(events + [e], b))
  {
    SurvivingPush(events, e, b);
    assert Consistent(t) && StandFor(Rows(t, b), Surviving(events, b));
    PushAccepted(t, events, e);
    hide Consistent, Rows, Surviving, HasPush, Holds, StandFor;
    var r := Push(t, e.bundle, e.tag, e.payload, e.now);
    if r.Some? {
      PushConsistent(t, e.bundle, e.tag, e.payload, e.now);
      PushRows(t, e.bundle, e.tag, e.payload, e.now, b);
      StandSnoc(Rows(t, b), Surviving(events, b), r.value.versions[|t.versions|], Entry(e.tag, e.payload, e.now));
      hide Push;
    }
    assert Surviving(events, b) + [] == Surviving(events, b);
  }

  lemma SurvivingPush(events: seq<Event>, e: Event, b: BundleName)
    requires e.Pushed?
    ensures Surviving(events + [e], b) == Surviving(events, b) +
      if e.bundle == b && Created(b.namespace) in events && !HasPush(Surviving(events, b), e.tag)
      then [Entry(e.tag, e.payload, e.now)] else []
  {
    assert (events + [e])[..|events|] == events;
  }

  /** Push is accepted exactly when the namespace exists and the bundle does not list the tag. */
  lemma PushAccepted(t: Tables, events: seq<Event>, e: Event)
    requires Holds(t, events) && e.Pushed?
    ensures Push(t, e.bundle, e.tag, e.payload, e.now).Some? <==>
      Created(e.bundle.namespace) in events && !HasPush(Surviving(events, e.bundle), e.tag)
  {
    var log := Surviving(events, e.bundle);
    assert StandFor(Rows(t, e.bundle), log);
    assert e.bundle.namespace in t.namespaces <==> Created(e.bundle.namespace) in events;
    if e.bundle in t.bundles { TagIsPush(t.versions, t.bundles[e.bundle], log, e.tag); }
    hide OfBundle, StandFor, Surviving, Format;
  }

  lemma StepDeleted(t: Tables, events: seq<Event>, e: Event, b: BundleName)
    requires Holds(t, events) && e.Deleted?
    ensures Consistent(Next(t, e)) && StandFor(Rows(Next(t, e), b), Surviving(events + [e], b))
  {
    assert (events + [e])[..|events|] == events;
    var rows, log := Rows(t, e.bundle), Surviving(events, e.bundle);
    assert StandFor(Rows(t, b), Surviving(events, b)) && StandFor(rows, log);
    if e.bundle in t.bundles {
      var id := t.bundles[e.bundle];
      OfBundleKeeps(t.versions, id);
      DropStands(rows, log, id, e.tag);
      if HasTag(t.versions, id, e.tag) {
        DeleteRows(t, e.bundle, e.tag, b);
      } else {
        assert forall k :: 0 <= k < |rows| ==> rows[k] in rows;
        WithoutNone(rows, id, e.tag);
      }
    } else {
      assert log == [];
    }
  }

  /** In every history the constraints hold and each bundle's rows are its surviving pushes, in push order. */
  lemma {:induction false} RunHolds(events: seq<Event>)
    ensures Holds(Run(events), events)
    decreases |events|
  {
    if events != [] {
      var n := |events| - 1;
      RunHolds(events[..n]);
      StepHolds(Run(events[..n]), events[..n], events[n]);
      assert events[..n] + [events[n]] == events;
    }
  }

  // ----- what the queries answer -----

  lemma TagsOfReverse(rows: seq<Version>, log: seq<Entry>)
    requires StandFor(rows, log)
    ensures Tags(Reverse(rows)) == Newest(log)
  {
    hide Reverse, Newest, Format;
    forall k | 0 <= k < |rows|
      ensures Tags(Reverse(rows))[k] == Newest(log)[k]
    {
      ReverseAt(rows, k);
      NewestAt(log, k);
      assert Stands(rows[|rows| - 1 - k], log[|rows| - 1 - k]);
    }
    assert |Tags(Reverse(rows))| == |Newest(log)|;
  }

  lemma {:induction false} NewestAt(log: seq<Entry>, k: nat)
    requires k < |log|
    ensures Newest(log)[k] == TagInfo(log[|log| - 1 - k].tag, Format(log[|log| - 1 - k].now))
    decreases |log|
  {
    hide Format;
    if k > 0 {
      NewestAt(log[..|log| - 1], k - 1);
    }
  }

  lemma {:induction false} SurvivingFrom(events: seq<Event>, b: BundleName)
    ensures forall p :: p in Surviving(events, b) ==> Pushed(b, p.tag, p.payload, p.now) in events
    decreases |events|
  {
    if events != [] {
      var n := |events| - 1;
      SurvivingFrom(events[..n], b);
      assert events == events[..n] + [events[n]];
      if events[n].Deleted? { DropMembers(Surviving(events[..n], b), events[n].tag); }
    }
  }

  lemma {:induction false} DropMembers(log: seq<Entry>, tag: string)
    ensures forall p :: p in Drop(log, tag) ==> p in log && p.tag != tag
    decreases |log|
  {
    if log != [] {
      DropMembers(log[..|log| - 1], tag);
    }
  }

  lemma {:induction false} DropInOrder(log: seq<Entry>, tag: string)
    requires InOrder(log)
    ensures InOrder(Drop(log, tag))
    decreases |log|
  {
    if log != [] {
      var n := |log| - 1;
      DropInOrder(log[..n], tag);
      DropMembers(log[..n], tag);
      var kept := Drop(log[..n], tag);
      forall k | 0 <= k < |kept|
        ensures !Earlier(log[n].now, kept[k].now)
      {
        assert kept[k] in log[..n];
      }
      hide Earlier;
    }
  }

  /** Under a clock that never goes back, the surviving pushes stand in time order. */
  lemma {:induction false} ForwardIsInOrder(events: seq<Event>, b: BundleName)
    requires ClockForward(events)
    ensures InOrder(Surviving(events, b))
    decreases |events|
  {
    if events != [] {
      var n := |events| - 1;
      ForwardIsInOrder(events[..n], b);
      var log := Surviving(events[..n], b);
      match events[n]
      case Deleted(_, tag) => DropInOrder(log, tag);
      case Created(_) =>
      case Pushed(_, _, _, now) =>
        SurvivingFrom(events[..n], b);
        forall p | p in log
          ensures !Earlier(now, p.now)
        {
          var e := Pushed(b, p.tag, p.payload, p.now);
          var k :| 0 <= k < n && events[k] == e;
          assert events[k].Pushed? && events[n].Pushed?;
        }
        assert forall k :: 0 <= k < |log| ==> log[k] in log;
    }
  }

  /** The stamps of a bundle's rows stand in text order exactly when its pushes stand in time order. */
  lemma TextInOrderIsInOrder(rows: seq<Version>, log: seq<Entry>)
    requires StandFor(rows, log) && forall k :: 0 <= k < |log| ==> Valid(log[k].now)
    ensures TextInOrder(rows) <==> InOrder(log)
  {
    forall i, j | 0 <= i < j < |rows|
      ensures Less(rows[j].pushedAt, rows[i].pushedAt) <==> Earlier(log[j].now, log[i].now)
    {
      assert Stands(rows[i], log[i]) && Stands(rows[j], log[j]);
      TextOrderIsTimeOrder(log[j].now, log[i].now);
    }
  }

  /** No tag twice. */
  ghost predicate DistinctTags(rows: seq<Version>) {
    forall i, j :: 0 <= i < j < |rows| ==> rows[i].tag != rows[j].tag
  }

  lemma BundleRows(t: Tables, b: BundleName)
    requires Consistent(t)
    ensures Ascending(Rows(t, b)) && DistinctTags(Rows(t, b))
  {
    if b in t.bundles {
      OfBundleKeeps(t.versions, t.bundles[b]);
      var rows := Rows(t, b);
      hide OfBundle;
      forall i, j | 0 <= i < j < |rows|
        ensures rows[i].tag != rows[j].tag
      {
        assert rows[i] in rows && rows[j] in rows;
      }
    }
  }

  lemma SurvivingTimes(events: seq<Event>, b: BundleName)
    requires ValidTimes(events)
    ensures forall k :: 0 <= k < |Surviving(events, b)| ==> Valid(Surviving(events, b)[k].now)
  {
    SurvivingFrom(events, b);
    var log := Surviving(events, b);
    forall k | 0 <= k < |log|
      ensures Valid(log[k].now)
    {
      var e := Pushed(b, log[k].tag, log[k].payload, log[k].now);
      assert log[k] in log;
      var i :| 0 <= i < |events| && events[i] == e;
    }
  }

  lemma HistoryRows(events: seq<Event>, b: BundleName)
    ensures var rows := Rows(Run(events), b);
      Ascending(rows) && DistinctTags(rows) && StandFor(rows, Surviving(events, b))
  {
    RunHolds(events);
    BundleRows(Run(events), b);
    hide Run, Surviving, Rows, Consistent;
  }

  lemma HistoryOrder(events: seq<Event>, b: BundleName)
    requires ValidTimes(events)
    ensures TextInOrder(Rows(Run(events), b)) <==> InOrder(Surviving(events, b))
  {
    HistoryRows(events, b);
    SurvivingTimes(events, b);
    TextInOrderIsInOrder(Rows(Run(events), b), Surviving(events, b));
    hide Run, Surviving, Rows, Consistent;
  }

  /**
   ListTags answers the surviving pushes, newest first, under a forward clock, for every history: seconds
   that tie are told apart by rowid, even though rowids are reused after a deletion.
   */
  lemma ListTagsIsHistory(events: seq<Event>, b: BundleName)
    requires ValidTimes(events) && ClockForward(events)
    ensures ListTags(Run(events), b) == Newest(Surviving(events, b))
  {
    HistoryRows(events, b);
    HistoryOrder(events, b);
    ForwardIsInOrder(events, b);
    var rows := Rows(Run(events), b);
    InOrderReverses(rows);
    TagsOfReverse(rows, Surviving(events, b));
  }

  /** With any clock: the query reads the table backwards exactly when the surviving pushes stand in time order. */
  lemma NewestFirstExactly(events: seq<Event>, b: BundleName)
    requires ValidTimes(events)
    ensures OrderByNewest(Rows(Run(events), b)) == Reverse(Rows(Run(events), b)) <==> InOrder(Surviving(events, b))
  {
    HistoryRows(events, b);
    HistoryOrder(events, b);
    OrderByIsReverseExactly(Rows(Run(events), b));
  }

  function Answer(p: Entry): Pulled {
    Pulled(p.tag, p.payload, Format(p.now))
  }

  lemma NewestAnswers(rows: seq<Version>, log: seq<Entry>)
    requires StandFor(rows, log) && OrderByNewest(rows) == Reverse(rows)
    ensures OrderByNewest(rows) == [] <==> log == []
    ensures log != [] ==>
      var newest := OrderByNewest(rows)[0];
      Pulled(newest.tag, newest.payload, newest.pushedAt) == Answer(log[|log| - 1])
  {
    hide OrderByNewest;
    if rows != [] {
      ReverseAt(rows, 0);
      assert Stands(rows[|rows| - 1], log[|rows| - 1]);
    }
  }

  /** Pulling without a tag, or with "latest", answers the last surviving push. */
  lemma PullLatestIsHead(events: seq<Event>, b: BundleName, tag: string)
    requires ValidTimes(events) && ClockForward(events) && (tag == "" || tag == "latest")
    ensures var log := Surviving(events, b);
      Pull(Run(events), b, tag) == if log == [] then None else Some(Answer(log[|log| - 1]))
  {
    HistoryRows(events, b);
    HistoryOrder(events, b);
    ForwardIsInOrder(events, b);
    var rows := Rows(Run(events), b);
    InOrderReverses(rows);
    NewestAnswers(rows, Surviving(events, b));
    hide Rows, Run, Surviving, OrderByNewest, Reverse, InOrder, StandFor, Answer, Ascending, DistinctTags,
        ClockForward, ValidTimes;
  }

  lemma TailStands(rows: seq<Version>, log: seq<Entry>)
    requires StandFor(rows, log) && rows != []
    ensures StandFor(rows[1..], log[1..])
  {
    forall k | 0 <= k < |rows| - 1
      ensures Stands(rows[1..][k], log[1..][k])
    {
      assert Stands(rows[k + 1], log[k + 1]);
    }
  }

  lemma HasPushHead(log: seq<Entry>, tag: string)
    requires log != []
    ensures HasPush(log, tag) <==> log[0].tag == tag || HasPush(log[1..], tag)
  {
    assert log == [log[0]] + log[1..];
  }

  lemma {:induction false} TaggedFinds(rows: seq<Version>, log: seq<Entry>, tag: string)
    requires StandFor(rows, log)
    ensures Tagged(rows, tag).Some? <==> HasPush(log, tag)
    ensures Tagged(rows, tag).Some? ==>
      exists k :: 0 <= k < |rows| && rows[k] == Tagged(rows, tag).value && log[k].tag == tag
    decreases |rows|
  {
    if rows != [] {
      assert Stands(rows[0], log[0]);
      HasPushHead(log, tag);
      TailStands(rows, log);
      hide StandFor, HasPush;
      if rows[0].tag == tag {
        assert rows[0] == Tagged(rows, tag).value && log[0].tag == tag;
      } else {
        TaggedFinds(rows[1..], log[1..], tag);
        if Tagged(rows[1..], tag).Some? {
          var k :| 0 <= k < |rows| - 1 && rows[1..][k] == Tagged(rows[1..], tag).value && log[1..][k].tag == tag;
          assert rows[k + 1] == Tagged(rows, tag).value && log[k + 1].tag == tag;
        }
      }
    }
  }

  /** Pulling any other tag answers the one surviving push with that tag, if there is one. */
  lemma PullTagIsThePush(events: seq<Event>, b: BundleName, tag: string)
    requires tag != "" && tag != "latest"
    ensures Pull(Run(events), b, tag).Some? <==> HasPush(Surviving(events, b), tag)
    ensures forall p :: p in Surviving(events, b) && p.tag == tag ==> Pull(Run(events), b, tag) == Some(Answer(p))
  {
    HistoryRows(events, b);
    var rows, log := Rows(Run(events), b), Surviving(events, b);
    TaggedFinds(rows, log, tag);
    forall p | p in log && p.tag == tag
      ensures Pull(Run(events), b, tag) == Some(Answer(p))
    {
      var i :| 0 <= i < |log| && log[i] == p;
      assert HasPush(log, tag);
      var k :| 0 <= k < |rows| && rows[k] == Tagged(rows, tag).value && log[k].tag == tag;
      hide Run, Surviving, Rows, Tagged, HasPush;
      assert Stands(rows[i], log[i]) && Stands(rows[k], log[k]);
      assert rows[i].tag == rows[k].tag;
      assert i == k;
    }
  }

  /** A surviving tag is stored once. */
  lemma TagsAreUnique(events: seq<Event>, b: BundleName)
    ensures var log := Surviving(events, b);
      forall i, j :: 0 <= i < j < |log| ==> log[i].tag != log[j].tag
  {
    HistoryRows(events, b);
    var rows, log := Rows(Run(events), b), Surviving(events, b);
    forall i, j | 0 <= i < j < |log|
      ensures log[i].tag != log[j].tag
    {
      assert Stands(rows[i], log[i]) && Stands(rows[j], log[j]);
    }
  }

  /** A push or a deletion changes no query of another bundle, and no push or deletion changes the namespaces. */
  lemma OthersUntouched(events: seq<Event>, e: Event, b: BundleName, tag: string)
    requires (e.Pushed? || e.Deleted?) && e.bundle != b
    ensures ListTags(Run(events + [e]), b) == ListTags(Run(events), b)
    ensures Pull(Run(events + [e]), b, tag) == Pull(Run(events), b, tag)
    ensures Run(events + [e]).namespaces == Run(events).namespaces
  {
    RunHolds(events);
    var t := Run(events);
    assert (events + [e])[..|events|] == events;
    RowsElsewhere(t, e, b);
    hide Rows, Next, Holds, Consistent;
  }

  lemma RowsElsewhere(t: Tables, e: Event, b: BundleName)
    requires Consistent(t) && (e.Pushed? || e.Deleted?) && e.bundle != b
    ensures Rows(Next(t, e), b) == Rows(t, b) && Next(t, e).namespaces == t.namespaces
  {
    if e.Pushed? && Push(t, e.bundle, e.tag, e.payload, e.now).Some? {
      PushRows(t, e.bundle, e.tag, e.payload, e.now, b);
    }
    if e.Deleted? && DeleteVersion(t, e.bundle, e.tag).Some? {
      DeleteRows(t, e.bundle, e.tag, b);
    }
    hide Rows, Consistent;
  }
}
