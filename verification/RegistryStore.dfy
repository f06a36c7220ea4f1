/**
 The registry's store: a database whose tables the calls update in place.
 */
module RegistryStore {
  import opened Wrappers
  import opened Timestamps
  import opened RegistryTables
  import H = RegistryHistory

  class Store {
    var namespaces: set<string>
    var bundles: map<BundleName, nat>
    var versions: seq<Version>
    var nextId: nat
    var apiKeys: map<string, string>   // the column api_key, by key

    ghost function Contents(): Tables
      reads this
    {
      Tables(namespaces, bundles, versions, nextId)
    }

    ghost predicate Valid()
      reads this
    {
      Consistent(Contents()) && forall key :: key in apiKeys ==> apiKeys[key] in namespaces
    }

    /** Opening a database: the tables it already has, which are EMPTY in a new file. */
    constructor (stored: Tables, apiKeys: map<string, string>)
      requires Consistent(stored) && forall key :: key in apiKeys ==> apiKeys[key] in stored.namespaces
      ensures Valid() && Contents() == stored && this.apiKeys == apiKeys
    {
      namespaces, bundles, versions, nextId := stored.namespaces, stored.bundles, stored.versions, stored.nextId;
      this.apiKeys := apiKeys;
    }

    /** Fails when the name or the key is taken. */
    method CreateNamespace(name: string, apiKey: string) returns (ok: bool)
      requires Valid()
      modifies this`namespaces, this`apiKeys
      ensures Valid() && Contents() == if ok then Next(old(Contents()), Created(name)) else old(Contents())
      ensures ok <==> name !in old(namespaces) && apiKey !in old(apiKeys)
      ensures apiKeys == if ok then old(apiKeys)[apiKey := name] else old(apiKeys)
    {
      if name in namespaces || apiKey in apiKeys {
        return false;
      }
      namespaces, apiKeys := namespaces + {name}, apiKeys[apiKey := name];
      ok := true;
    }

    /** The namespace that the key belongs to. */
    method LookupNamespace(apiKey: string) returns (name: Option<string>)
      requires Valid()
      ensures name.Some? <==> apiKey in apiKeys
      ensures name.Some? ==> name.value == apiKeys[apiKey] && name.value in Contents().namespaces
    {
      name := if apiKey in apiKeys then Some(apiKeys[apiKey]) else None;
    }

    /** A transaction: the bundle row is made first and is undone when the version cannot be stored. */
    method Push(b: BundleName, tag: string, payload: string, now: Time) returns (ok: bool)
      requires Valid()
      modifies this`bundles, this`versions, this`nextId
      ensures Valid() && Contents() == Next(old(Contents()), Pushed(b, tag, payload, now))
      ensures ok <==> RegistryTables.Push(old(Contents()), b, tag, payload, now).Some?
    {
      ghost var start := Contents();
      var savedBundles, savedNextId := bundles, nextId;
      var id;
      if b in bundles {
        id := bundles[b];
      } else {
        if b.namespace !in namespaces {
          return false;
        }
        id := nextId;
        bundles, nextId := bundles[b := id], nextId + 1;
      }
      if HasTag(versions, id, tag) {
        bundles, nextId := savedBundles, savedNextId;
        return false;
      }
      versions := versions + [Version(NextRowid(versions), id, tag, payload, Format(now))];
      ok := true;
      assert start.bundles[b := id] == bundles;
      H.PushConsistent(start, b, tag, payload, now);
    }

    method DeleteVersion(b: BundleName, tag: string) returns (ok: bool)
      requires Valid()
      modifies this`versions
      ensures Valid() && Contents() == Next(old(Contents()), Deleted(b, tag))
      ensures ok <==> b in bundles && HasTag(old(versions), bundles[b], tag)
    {
      ok := b in bundles && HasTag(versions, bundles[b], tag);
      if ok {
        H.DeleteRows(Contents(), b, tag, b);
        versions := Without(versions, bundles[b], tag);
      }
    }

    method ListTags(b: BundleName) returns (tags: seq<TagInfo>)
      ensures tags == RegistryTables.ListTags(Contents(), b)
    {
      var rows := if b in bundles then OfBundle(versions, bundles[b]) else [];
      var sorted := OrderByNewest(rows);
      tags := [];
      for i := 0 to |sorted|
        invariant tags == Tags(sorted[..i])
      {
        tags := tags + [TagInfo(sorted[i].tag, sorted[i].pushedAt)];
      }
      assert sorted[..|sorted|] == sorted;
    }

    method Pull(b: BundleName, tag: string) returns (r: Option<Pulled>)
      ensures r == RegistryTables.Pull(Contents(), b, tag)
    {
      var rows := if b in bundles then OfBundle(versions, bundles[b]) else [];
      var row;
      if tag == "" || tag == "latest" {
        var sorted := OrderByNewest(rows);
        row := if sorted == [] then None else Some(sorted[0]);
      } else {
        row := Tagged(rows, tag);
      }
      if row == None {
        return None;
      }
      r := Some(Pulled(row.value.tag, row.value.payload, row.value.pushedAt));
    }
  }
}
