/**
 Sequences of panes, in the order in which a layout shows them.
 */
module LeafSeqs {
  import opened Wrappers

  /** A pane: a terminal, an SFTP browser or a local file browser. */
  datatype Leaf = Leaf(
    kind: string,
    paneId: string,
    connectionId: string,
    channelId: string,
    hostId: string,
    hostLabel: string,
    status: string,
    connectedAt: Option<string>)

  datatype Position = Before | After

  /** How often each pane id occurs. */
  function IdBag(s: seq<Leaf>): multiset<string> {
    if s == [] then multiset{} else multiset{s[0].paneId} + IdBag(s[1..])
  }

  predicate HasId(s: seq<Leaf>, id: string) {
    exists k :: 0 <= k < |s| && s[k].paneId == id
  }

  /** No pane id occurs twice. */
  ghost predicate UniqueIds(s: seq<Leaf>) {
    forall id :: IdBag(s)[id] <= 1
  }

  /** Array.find by pane id. */
  function Find(s: seq<Leaf>, id: string): (r: Option<Leaf>)
    ensures r.Some? <==> HasId(s, id)
    ensures r.Some? ==> r.value in s && r.value.paneId == id
  {
    if s == [] then None
    else if s[0].paneId == id then assert s[0] in s; Some(s[0])
    else
      assert forall k :: 0 < k < |s| ==> s[1..][k - 1] == s[k];
      Find(s[1..], id)
  }

  /** The sequence without the first pane that has the id. */
  function DeleteFirst(s: seq<Leaf>, id: string): seq<Leaf> {
    if s == [] then []
    else if s[0].paneId == id then s[1..]
    else [s[0]] + DeleteFirst(s[1..], id)
  }

  /** The sequence with a pane put next to each pane that has the target id. */
  function InsertBeside(s: seq<Leaf>, target: string, leaf: Leaf, position: Position): seq<Leaf> {
    if s == [] then []
    else Beside(s[0], target, leaf, position) + InsertBeside(s[1..], target, leaf, position)
  }

  function Beside(at: Leaf, target: string, leaf: Leaf, position: Position): seq<Leaf> {
    if at.paneId != target then [at] else if position == Before then [leaf, at] else [at, leaf]
  }

  lemma {:induction false} IdBagConcat(a: seq<Leaf>, b: seq<Leaf>)
    ensures IdBag(a + b) == IdBag(a) + IdBag(b)
  {
    if a == [] {
      assert a + b == b;
    } else {
      assert (a + b)[1..] == a[1..] + b;
      IdBagConcat(a[1..], b);
    }
  }

  lemma {:induction false} IdBagHas(s: seq<Leaf>, id: string)
    ensures IdBag(s)[id] > 0 <==> HasId(s, id)
  {
    if s != [] {
      IdBagHas(s[1..], id);
      assert forall k :: 0 < k < |s| ==> s[1..][k - 1] == s[k];
      if HasId(s[1..], id) {
        var k :| 0 <= k < |s[1..]| && s[1..][k].paneId == id;
        assert s[k + 1].paneId == id;
      }
    }
  }

  lemma HasIdConcat(a: seq<Leaf>, b: seq<Leaf>, id: string)
    ensures HasId(a + b, id) <==> HasId(a, id) || HasId(b, id)
  {
    IdBagConcat(a, b);
    IdBagHas(a, id);
    IdBagHas(b, id);
    IdBagHas(a + b, id);
  }

  lemma HasIdTail(s: seq<Leaf>, id: string)
    requires s != [] && s[0].paneId != id
    ensures HasId(s, id) <==> HasId(s[1..], id)
  {
    HasIdConcat([s[0]], s[1..], id);
    assert s == [s[0]] + s[1..];
  }

  lemma DeleteFirstHere(a: seq<Leaf>, b: seq<Leaf>, id: string)
    requires a != [] && a[0].paneId == id
    ensures HasId(a, id) && DeleteFirst(a + b, id) == DeleteFirst(a, id) + b
  {
    assert (a + b)[1..] == a[1..] + b;
  }

  /** DeleteFirst looks past a first pane with another id, whatever follows. */
  lemma DeleteFirstNext(a: seq<Leaf>, b: seq<Leaf>, id: string)
    requires a != [] && a[0].paneId != id
    ensures DeleteFirst(a + b, id) == [a[0]] + DeleteFirst(a[1..] + b, id)
    ensures DeleteFirst(a, id) == [a[0]] + DeleteFirst(a[1..], id)
  {
    assert (a + b)[1..] == a[1..] + b;
    assert (a + b)[0] == a[0];
  }

  lemma Regroup(head: Leaf, s: seq<Leaf>, t: seq<Leaf>)
    ensures [head] + (s + t) == ([head] + s) + t
  {}

  lemma {:induction false} DeleteFirstConcat(a: seq<Leaf>, b: seq<Leaf>, id: string)
    ensures DeleteFirst(a + b, id) == if HasId(a, id) then DeleteFirst(a, id) + b else a + DeleteFirst(b, id)
  {
    if a == [] {
      assert a + b == b;
    } else if a[0].paneId == id {
      DeleteFirstHere(a, b, id);
      hide *;
    } else {
      DeleteFirstNext(a, b, id);
      DeleteFirstConcat(a[1..], b, id);
      HasIdTail(a, id);
      hide *;
      Regroup(a[0], DeleteFirst(a[1..], id), b);
      Regroup(a[0], a[1..], DeleteFirst(b, id));
      assert [a[0]] + a[1..] == a;
    }
  }

  lemma {:induction false} InsertBesideConcat(a: seq<Leaf>, b: seq<Leaf>, target: string, leaf: Leaf,
                                              position: Position)
    ensures InsertBeside(a + b, target, leaf, position)
         == InsertBeside(a, target, leaf, position) + InsertBeside(b, target, leaf, position)
  {
    if a == [] {
      assert a + b == b;
    } else {
      assert (a + b)[1..] == a[1..] + b;
      InsertBesideConcat(a[1..], b, target, leaf, position);
    }
  }

  /** Deleting takes out exactly the pane Find returns. */
  lemma {:induction false} DeleteFirstBag(s: seq<Leaf>, id: string)
    ensures Find(s, id) == None ==> DeleteFirst(s, id) == s
    ensures Find(s, id).Some? ==>
      OneMore(DeleteFirst(s, id), s, Find(s, id).value)
  {
    if s != [] {
      assert s == [s[0]] + s[1..];
      if s[0].paneId != id {
        DeleteFirstBag(s[1..], id);
        var d := DeleteFirst(s, id);
        assert d[1..] == DeleteFirst(s[1..], id);
        assert Find(s, id) == Find(s[1..], id);
      }
    }
  }

  lemma {:induction false} InsertBesideNone(s: seq<Leaf>, target: string, leaf: Leaf, position: Position)
    requires IdBag(s)[target] == 0
    ensures InsertBeside(s, target, leaf, position) == s
  {
    if s != [] {
      InsertBesideNone(s[1..], target, leaf, position);
    }
  }

  ghost predicate OneMore(s: seq<Leaf>, s': seq<Leaf>, leaf: Leaf) {
    multiset(s') == multiset(s) + multiset{leaf} && IdBag(s') == IdBag(s) + multiset{leaf.paneId}
  }

  /** Inserting next to a target that occurs once adds the pane once. */
  lemma {:induction false} InsertBesideOne(s: seq<Leaf>, target: string, leaf: Leaf, position: Position)
    requires IdBag(s)[target] == 1
    ensures OneMore(s, InsertBeside(s, target, leaf, position), leaf)
  {
    assert s != [];
    var head, tail := s[0], s[1..];
    TargetIn(head, tail, target);
    assert s == [head] + tail;
    hide IdBag, OneMore, Beside;
    if head.paneId == target {
      InsertBesideNone(tail, target, leaf, position);
      BesideBags(head, target, leaf, position, tail);
    } else {
      InsertBesideOne(tail, target, leaf, position);
      OneMoreCons(head, tail, InsertBeside(tail, target, leaf, position), leaf);
      BesideElse(head, target, leaf, position);
    }
  }

  lemma TargetIn(head: Leaf, tail: seq<Leaf>, target: string)
    ensures IdBag([head] + tail)[target] == IdBag(tail)[target] + if head.paneId == target then 1 else 0
  {
    BagsCons(head, tail);
  }

  lemma BesideElse(at: Leaf, target: string, leaf: Leaf, position: Position)
    requires at.paneId != target
    ensures Beside(at, target, leaf, position) == [at]
  {}

  lemma OneMoreCons(head: Leaf, s: seq<Leaf>, s': seq<Leaf>, leaf: Leaf)
    requires OneMore(s, s', leaf)
    ensures OneMore([head] + s, [head] + s', leaf)
  {
    BagsCons(head, s);
    BagsCons(head, s');
  }

  lemma BesideBags(at: Leaf, target: string, leaf: Leaf, position: Position, rest: seq<Leaf>)
    requires at.paneId == target
    ensures OneMore([at] + rest, Beside(at, target, leaf, position) + rest, leaf)
  {
    hide IdBag, OneMore;
    if position == Before {
      assert [leaf, at] + rest == [leaf] + ([at] + rest);
      OneMoreHead([at] + rest, leaf);
    } else {
      assert [at, leaf] + rest == [at] + ([leaf] + rest);
      OneMoreHead(rest, leaf);
      OneMoreCons(at, rest, [leaf] + rest, leaf);
    }
  }

  lemma OneMoreHead(s: seq<Leaf>, leaf: Leaf)
    ensures OneMore(s, [leaf] + s, leaf)
  {
    BagsCons(leaf, s);
  }

  lemma BagsCons(leaf: Leaf, s: seq<Leaf>)
    ensures multiset([leaf] + s) == multiset{leaf} + multiset(s)
    ensures IdBag([leaf] + s) == multiset{leaf.paneId} + IdBag(s)
  {
    assert ([leaf] + s)[1..] == s;
  }
}
