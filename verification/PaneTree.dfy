/**
 Tree surgery on pane layouts (frontend/src/lib/paneTree.ts), against what it does to the panes in
 the order they are shown.
 */
module PaneTree {
  import opened Wrappers
  import opened LeafSeqs

  datatype Direction = Horizontal | Vertical

  datatype Node =
    | Pane(leaf: Leaf)
    | Split(direction: Direction, ratio: real, left: Node, right: Node)

  /** The fields that status events overwrite; an absent field is kept. */
  datatype Patch = Patch(status: Option<string>, connectedAt: Option<string>)

  function CollectLeaves(node: Node): (r: seq<Leaf>)
    ensures r != []
  {
    match node
    case Pane(leaf) => [leaf]
    case Split(_, _, left, right) => CollectLeaves(left) + CollectLeaves(right)
  }

  function FirstLeaf(node: Node): Leaf {
    match node
    case Pane(leaf) => leaf
    case Split(_, _, left, _) => FirstLeaf(left)
  }

  function InsertLeaf(node: Node, target: string, direction: Direction, leaf: Leaf, position: Position): Node {
    match node
    case Pane(l) =>
      if l.paneId != target then node
      else if position == Before then Split(direction, 0.5, Pane(leaf), node)
      else Split(direction, 0.5, node, Pane(leaf))
    case Split(d, r, left, right) =>
      Split(d, r, InsertLeaf(left, target, direction, leaf, position), InsertLeaf(right, target, direction, leaf,
          position))
  }

  function SplitLeaf(node: Node, paneId: string, direction: Direction, leaf: Leaf): Node {
    InsertLeaf(node, paneId, direction, leaf, After)
  }

  /** What removeLeaf returns, and whether that is the very object it was given. */
  datatype Removal = Removal(node: Option<Node>, same: bool)

  /** removeLeaf, with the reference comparisons of the code tracked by `same`. */
  function Remove(node: Node, paneId: string): Removal {
    match node
    case Pane(leaf) => if leaf.paneId == paneId then Removal(None, false) else Removal(Some(node), true)
    case Split(d, r, left, right) =>
      var newLeft := Remove(left, paneId);
      if !newLeft.same then
        Removal(Some(if newLeft.node == None then right else Split(d, r, newLeft.node.value, right)), false)
      else
        var newRight := Remove(right, paneId);
        if !newRight.same then
          Removal(Some(if newRight.node == None then left else Split(d, r, left, newRight.node.value)), false)
        else
          Removal(Some(node), true)
  }

  function RemoveLeaf(node: Node, paneId: string): Option<Node> {
    Remove(node, paneId).node
  }

  function MoveLeaf(node: Node, source: string, target: string, direction: Direction,
                    position: Position): Option<Node> {
    var sourceLeaf := Find(CollectLeaves(node), source);
    if sourceLeaf == None then Some(node)
    else if source == target then Some(node)
    else
      var afterRemoval := RemoveLeaf(node, source);
      if afterRemoval == None then None
      else Some(InsertLeaf(afterRemoval.value, target, direction, sourceLeaf.value, position))
  }

  function Apply(leaf: Leaf, patch: Patch): Leaf {
    leaf.(status := if patch.status.Some? then patch.status.value else leaf.status,
          connectedAt := if patch.connectedAt.Some? then patch.connectedAt else leaf.connectedAt)
  }

  function UpdateLeafByChannelId(node: Node, channelId: string, patch: Patch): Node {
    match node
    case Pane(leaf) => if leaf.channelId == channelId then Pane(Apply(leaf, patch)) else node
    case Split(d, r, left, right) =>
      Split(d, r, UpdateLeafByChannelId(left, channelId, patch), UpdateLeafByChannelId(right, channelId, patch))
  }

  function OptLeaves(node: Option<Node>): seq<Leaf> {
    if node.Some? then CollectLeaves(node.value) else []
  }

  // ----- exact effect on the panes -----

  lemma FirstLeafIsFirst(node: Node)
    ensures FirstLeaf(node) == CollectLeaves(node)[0]
  {}

  /** Inserting puts the pane next to every pane with the target id, and changes nothing else. */
  lemma {:induction false} InsertLeafExact(node: Node, target: string, direction: Direction, leaf: Leaf,
                                           position: Position)
    ensures CollectLeaves(InsertLeaf(node, target, direction, leaf, position))
         == InsertBeside(CollectLeaves(node), target, leaf, position)
  {
    match node
    case Pane(l) =>
      assert InsertBeside([l], target, leaf, position) == Beside(l, target, leaf, position);
    case Split(_, _, left, right) =>
      InsertLeafExact(left, target, direction, leaf, position);
      InsertLeafExact(right, target, direction, leaf, position);
      InsertBesideConcat(CollectLeaves(left), CollectLeaves(right), target, leaf, position);
  }

  /**
   Removing takes out exactly the first pane with the id and closes up the rest; the object
   comes back as it is exactly when it does not hold the id, and nothing comes back exactly when
   it is that pane.
   */
  lemma {:induction false} RemoveExact(node: Node, paneId: string)
    ensures OptLeaves(RemoveLeaf(node, paneId)) == DeleteFirst(CollectLeaves(node), paneId)
    ensures Remove(node, paneId).same <==> !HasId(CollectLeaves(node), paneId)
    ensures Remove(node, paneId).same ==> RemoveLeaf(node, paneId) == Some(node)
    ensures RemoveLeaf(node, paneId) == None <==> node.Pane? && node.leaf.paneId == paneId
  {
    match node
    case Pane(leaf) =>
      assert CollectLeaves(node)[0] == leaf;
    case Split(_, _, left, right) =>
      RemoveExact(left, paneId);
      RemoveExact(right, paneId);
      DeleteFirstConcat(CollectLeaves(left), CollectLeaves(right), paneId);
      HasIdConcat(CollectLeaves(left), CollectLeaves(right), paneId);
  }

  function Size(node: Node): nat {
    match node
    case Pane(_) => 1
    case Split(_, _, left, right) => 1 + Size(left) + Size(right)
  }

  /** Comparing values instead of references would make the same decisions. */
  lemma {:induction false} ReferenceTestIsValueTest(node: Node, paneId: string)
    ensures Remove(node, paneId).same <==> RemoveLeaf(node, paneId) == Some(node)
    ensures RemoveLeaf(node, paneId).Some? && !Remove(node, paneId).same
            ==> Size(RemoveLeaf(node, paneId).value) < Size(node)
  {
    match node
    case Pane(_) =>
    case Split(_, _, left, right) =>
      ReferenceTestIsValueTest(left, paneId);
      ReferenceTestIsValueTest(right, paneId);
      RemoveExact(left, paneId);
      RemoveExact(right, paneId);
  }

  // ----- moving a pane -----

  ghost predicate WellIdentified(node: Node) {
    UniqueIds(CollectLeaves(node))
  }

  lemma OnePane(leaf: Leaf, id: string)
    ensures HasId([leaf], id) <==> leaf.paneId == id
  {
    assert [leaf][0] == leaf;
  }

  /** A present pane moved next to another present pane: it leaves its place and appears right beside the target. */
  lemma MoveLeafExact(node: Node, source: string, target: string, direction: Direction, position: Position)
    requires HasId(CollectLeaves(node), source) && HasId(CollectLeaves(node), target) && source != target
    ensures MoveLeaf(node, source, target, direction, position).Some?
    ensures var leaf := Find(CollectLeaves(node), source).value;
      CollectLeaves(MoveLeaf(node, source, target, direction, position).value)
        == InsertBeside(DeleteFirst(CollectLeaves(node), source), target, leaf, position)
  {
    RemoveExact(node, source);
    if node.Pane? {
      OnePane(node.leaf, source);
      OnePane(node.leaf, target);
    }
    InsertLeafExact(RemoveLeaf(node, source).value, target, direction, Find(CollectLeaves(node), source).value,
        position);
  }

  lemma Regroup(x: Leaf, a: seq<Leaf>, b: seq<Leaf>, c: seq<Leaf>)
    ensures [x] + (a + b + c) == ([x] + a) + b + c
  {}

  /** With unique ids the target stands once among the panes that stay, and only the moved pane comes in beside it. */
  lemma {:induction false} InsertBesideSplits(s: seq<Leaf>, target: string, leaf: Leaf, position: Position)
    returns (before: seq<Leaf>, at: Leaf, after: seq<Leaf>)
    requires IdBag(s)[target] == 1
    ensures s == before + [at] + after && at.paneId == target
    ensures InsertBeside(s, target, leaf, position)
         == before + (if position == Before then [leaf, at] else [at, leaf]) + after
  {
    assert s != [] && s == [s[0]] + s[1..];
    assert IdBag(s) == multiset{s[0].paneId} + IdBag(s[1..]);
    hide IdBag;
    if s[0].paneId == target {
      InsertBesideNone(s[1..], target, leaf, position);
      before, at, after := [], s[0], s[1..];
    } else {
      before, at, after := InsertBesideSplits(s[1..], target, leaf, position);
      Regroup(s[0], before, [at], after);
      Regroup(s[0], before, if position == Before then [leaf, at] else [at, leaf], after);
      before := [s[0]] + before;
    }
  }

  lemma MoveLeafPlaces(node: Node, source: string, target: string, direction: Direction, position: Position)
    returns (before: seq<Leaf>, at: Leaf, after: seq<Leaf>)
    requires WellIdentified(node)
    requires HasId(CollectLeaves(node), source) && HasId(CollectLeaves(node), target) && source != target
    ensures at.paneId == target
    ensures DeleteFirst(CollectLeaves(node), source) == before + [at] + after
    ensures MoveLeaf(node, source, target, direction, position).Some?
    ensures var leaf := Find(CollectLeaves(node), source).value;
      CollectLeaves(MoveLeaf(node, source, target, direction, position).value)
        == before + (if position == Before then [leaf, at] else [at, leaf]) + after
  {
    var s := CollectLeaves(node);
    var leaf := Find(s, source).value;
    MoveLeafExact(node, source, target, direction, position);
    DeleteFirstBag(s, source);
    IdBagHas(s, target);
    before, at, after := InsertBesideSplits(DeleteFirst(s, source), target, leaf, position);
  }

  /**
   moveLeaf keeps every pane exactly when there is nothing to move or there is a place to move it
   to: with the source present and a target that is neither the source nor present, it loses the
   source, although its comment promises an unchanged tree.
   */
  lemma MoveLeafConserves(node: Node, source: string, target: string, direction: Direction, position: Position)
    requires WellIdentified(node)
    ensures multiset(OptLeaves(MoveLeaf(node, source, target, direction, position))) == multiset(CollectLeaves(node))
      <==> !HasId(CollectLeaves(node), source) || source == target || HasId(CollectLeaves(node), target)
  {
    var s := CollectLeaves(node);
    if HasId(s, source) && source != target {
      var leaf := Find(s, source).value;
      var rest := DeleteFirst(s, source);
      DeleteFirstBag(s, source);
      IdBagHas(s, target);
      RemoveExact(node, source);
      if HasId(s, target) {
        MoveLeafExact(node, source, target, direction, position);
        InsertBesideOne(rest, target, leaf, position);
      } else {
        InsertBesideNone(rest, target, leaf, position);
        if RemoveLeaf(node, source).Some? {
          InsertLeafExact(RemoveLeaf(node, source).value, target, direction, leaf, position);
        }
        assert multiset(rest)[leaf] + 1 == multiset(s)[leaf];
      }
    }
  }

  /** The input on which the comment and the code part: two panes, and a target that does not exist. */
  lemma MoveToNowhere(a: Leaf, b: Leaf, target: string)
    requires a.paneId != b.paneId && target != a.paneId && target != b.paneId
    ensures MoveLeaf(Split(Vertical, 0.5, Pane(a), Pane(b)), a.paneId, target, Horizontal, After) == Some(Pane(b))
  {
    var node := Split(Vertical, 0.5, Pane(a), Pane(b));
    assert CollectLeaves(node) == [a, b];
    assert [a, b][0] == a;
    assert Find([a, b], a.paneId) == Some(a);
    assert Remove(Pane(a), a.paneId) == Removal(None, false);
    assert RemoveLeaf(node, a.paneId) == Some(Pane(b));
  }

  // ----- patching -----

  function PatchAll(s: seq<Leaf>, channelId: string, patch: Patch): (r: seq<Leaf>)
    ensures |r| == |s|
    ensures forall k :: 0 <= k < |s| ==> r[k] == if s[k].channelId == channelId then Apply(s[k], patch) else s[k]
  {
    seq(|s|, k requires 0 <= k < |s| => if s[k].channelId == channelId then Apply(s[k], patch) else s[k])
  }

  lemma {:induction false} UpdateLeafExact(node: Node, channelId: string, patch: Patch)
    ensures CollectLeaves(UpdateLeafByChannelId(node, channelId, patch))
            == PatchAll(CollectLeaves(node), channelId, patch)
  {
    match node
    case Pane(_) =>
    case Split(_, _, left, right) =>
      UpdateLeafExact(left, channelId, patch);
      UpdateLeafExact(right, channelId, patch);
  }

  lemma {:induction false} SameIdsSameBag(s: seq<Leaf>, s': seq<Leaf>)
    requires |s| == |s'| && forall k :: 0 <= k < |s| ==> s[k].paneId == s'[k].paneId
    ensures IdBag(s) == IdBag(s')
  {
    if s != [] {
      SameIdsSameBag(s[1..], s'[1..]);
    }
  }
}
