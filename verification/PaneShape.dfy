/**
 The shape of layouts: which splits there are, in which direction and ratio, and where each pane
 hangs.  What the tree surgery and the workspace actions do to it.
 */
module PaneShape {
  import opened Wrappers
  import opened LeafSeqs
  import opened PaneTree
  import opened Workspaces
  import opened WorkspaceSafety

  datatype Side = Left | Right

  function Other(side: Side): Side {
    if side == Left then Right else Left
  }

  function Child(node: Node, side: Side): Node
    requires node.Split?
  {
    if side == Left then node.left else node.right
  }

  /** The node at the end of a path from the root. */
  function At(node: Node, path: seq<Side>): Option<Node>
    decreases |path|
  {
    if path == [] then Some(node)
    else if node.Pane? then None
    else At(Child(node, path[0]), path[1..])
  }

  /** Splits alike, whatever hangs below them. */
  predicate SameSplit(a: Node, b: Node) {
    a.Split? && b.Split? && a.direction == b.direction && a.ratio == b.ratio
  }

  // ----- inserting -----

  /** In the place of a target pane: a split in the given direction, half and half, of it and the new pane. */
  function Halves(at: Leaf, direction: Direction, leaf: Leaf, position: Position): Node {
    if position == Before then Split(direction, 0.5, Pane(leaf), Pane(at)) else Split(direction, 0.5, Pane(at), Pane(leaf))
  }

  /** What stands where `before` stood. */
  predicate Planted(before: Node, after: Option<Node>, target: string, direction: Direction, leaf: Leaf,
                    position: Position) {
    match before
    case Pane(l) => after == Some(if l.paneId == target then Halves(l, direction, leaf, position) else before)
    case Split(_, _, _, _) => after.Some? && SameSplit(before, after.value)
  }

  /** Every pane with the target id becomes a split with the new pane; all other panes and splits stay where they are. */
  ghost predicate PlantedEverywhere(node: Node, node': Node, target: string, direction: Direction, leaf: Leaf,
                                    position: Position) {
    forall path :: At(node, path).Some? ==>
      Planted(At(node, path).value, At(node', path), target, direction, leaf, position)
  }

  lemma {:induction false} InsertAt(node: Node, target: string, direction: Direction, leaf: Leaf, position: Position,
                                    path: seq<Side>)
    requires At(node, path).Some?
    ensures Planted(At(node, path).value, At(InsertLeaf(node, target, direction, leaf, position), path), target, direction,
                    leaf, position)
    decreases |path|
  {
    if path != [] {
      InsertAt(Child(node, path[0]), target, direction, leaf, position, path[1..]);
    }
  }

  lemma InsertShape(node: Node, target: string, direction: Direction, leaf: Leaf, position: Position)
    ensures PlantedEverywhere(node, InsertLeaf(node, target, direction, leaf, position), target, direction, leaf, position)
  {
    forall path | At(node, path).Some?
      ensures Planted(At(node, path).value, At(InsertLeaf(node, target, direction, leaf, position), path), target,
                      direction, leaf, position)
    {
      InsertAt(node, target, direction, leaf, position, path);
    }
  }

  lemma AtChild(node: Node, side: Side, path: seq<Side>)
    requires node.Split?
    ensures At(node, [side] + path) == At(Child(node, side), path)
  {
    assert ([side] + path)[1..] == path;
  }

  /** A layout is known by its nodes. */
  lemma {:induction false} PlantedIsInsert(node: Node, node': Node, target: string, direction: Direction, leaf: Leaf,
                                           position: Position)
    requires PlantedEverywhere(node, node', target, direction, leaf, position)
    ensures node' == InsertLeaf(node, target, direction, leaf, position)
  {
    assert At(node, []) == Some(node) && At(node', []) == Some(node');
    if node.Split? {
      assert node'.Split?;
      PlantedBelow(node, node', Left, target, direction, leaf, position);
      PlantedBelow(node, node', Right, target, direction, leaf, position);
      PlantedIsInsert(node.left, node'.left, target, direction, leaf, position);
      PlantedIsInsert(node.right, node'.right, target, direction, leaf, position);
    }
  }

  lemma PlantedBelow(node: Node, node': Node, side: Side, target: string, direction: Direction, leaf: Leaf,
                     position: Position)
    requires node.Split? && node'.Split? && PlantedEverywhere(node, node', target, direction, leaf, position)
    ensures PlantedEverywhere(Child(node, side), Child(node', side), target, direction, leaf, position)
  {
    forall path | At(Child(node, side), path).Some?
      ensures Planted(At(Child(node, side), path).value, At(Child(node', side), path), target, direction, leaf, position)
    {
      AtChild(node, side, path);
      AtChild(node', side, path);
      assert At(node, [side] + path).Some?;
    }
  }

  // ----- removing -----

  /** The way to the first pane with an id. */
  function Way(node: Node, id: string): (path: seq<Side>)
    requires HasId(CollectLeaves(node), id)
    ensures At(node, path) == Some(Pane(Find(CollectLeaves(node), id).value))
    decreases node
  {
    match node
    case Pane(l) => assert [l][0] == l; []
    case Split(_, _, left, right) =>
      WayBelow(node, id);
      if HasId(CollectLeaves(left), id) then
        AtChild(node, Left, Way(left, id)); [Left] + Way(left, id)
      else
        AtChild(node, Right, Way(right, id)); [Right] + Way(right, id)
  }

  lemma WayBelow(node: Node, id: string)
    requires node.Split? && HasId(CollectLeaves(node), id)
    ensures HasId(CollectLeaves(node.left), id) || HasId(CollectLeaves(node.right), id)
    ensures Find(CollectLeaves(node), id) ==
      if HasId(CollectLeaves(node.left), id) then Find(CollectLeaves(node.left), id) else Find(CollectLeaves(node.right), id)
  {
    HasIdConcat(CollectLeaves(node.left), CollectLeaves(node.right), id);
    FindConcat(CollectLeaves(node.left), CollectLeaves(node.right), id);
  }

  lemma {:induction false} FindConcat(a: seq<Leaf>, b: seq<Leaf>, id: string)
    ensures Find(a + b, id) == if HasId(a, id) then Find(a, id) else Find(b, id)
  {
    if a == [] {
      assert a + b == b;
    } else {
      assert (a + b)[1..] == a[1..] + b && (a + b)[0] == a[0];
      FindConcat(a[1..], b, id);
      if a[0].paneId != id { HasIdTail(a, id); }
    }
  }

  /**
   Taking out the pane at the end of a path: its sibling takes the place of the split above it, and
   every split and pane that is not below that split stays as it is.
   */
  ghost predicate Closed(node: Node, node': Node, path: seq<Side>)
    requires path != []
  {
    var n := |path| - 1;
    && At(node', path[..n]) == At(node, path[..n] + [Other(path[n])])
    && forall other :: At(node, other).Some? && !(path[..n] <= other) ==>
         && At(node', other).Some?
         && (At(node', other) == At(node, other) || SameSplit(At(node', other).value, At(node, other).value))
  }

  lemma {:induction false} RemoveShape(node: Node, id: string)
    requires HasId(CollectLeaves(node), id)
    ensures Way(node, id) == [] ==> RemoveLeaf(node, id) == None
    ensures Way(node, id) != [] ==> RemoveLeaf(node, id).Some? && Closed(node, RemoveLeaf(node, id).value, Way(node, id))
  {
    if node.Split? {
      WayBelow(node, id);
      RemoveExact(node.left, id);
      var side := if HasId(CollectLeaves(node.left), id) then Left else Right;
      var below := Child(node, side);
      RemoveShape(below, id);
      var way, path := Way(below, id), Way(node, id);
      assert path == [side] + way;
      var node' := RemoveLeaf(node, id).value;
      if way == [] {
        AtChild(node, Other(side), []);
        assert path[..0] + [Other(side)] == [Other(side)] + [];
      } else {
        RemoveExact(below, id);
        ClosedAbove(node, node', side, way);
      }
    }
  }

  lemma ClosedAbove(node: Node, node': Node, side: Side, way: seq<Side>)
    requires node.Split? && SameSplit(node, node') && way != []
    requires Child(node', Other(side)) == Child(node, Other(side)) && Closed(Child(node, side), Child(node', side), way)
    ensures Closed(node, node', [side] + way)
  {
    var path, n := [side] + way, |way| - 1;
    assert path[..n + 1] == [side] + way[..n];
    AtChild(node', side, way[..n]);
    AtChild(node, side, way[..n] + [Other(way[n])]);
    assert path[..n + 1] + [Other(path[n + 1])] == [side] + (way[..n] + [Other(way[n])]);
    forall other | At(node, other).Some? && !(path[..n + 1] <= other)
      ensures At(node', other).Some?
      ensures At(node', other) == At(node, other) || SameSplit(At(node', other).value, At(node, other).value)
    {
      if other != [] {
        assert other == [other[0]] + other[1..];
        assert other[0] == side ==> !(way[..n] <= other[1..]);
      }
    }
  }

  // ----- patching -----

  /** A patched field has the new value, the others keep theirs. */
  lemma PatchedFields(leaf: Leaf, patch: Patch)
    ensures var leaf' := Apply(leaf, patch);
      && leaf'.status == (match patch.status case None => leaf.status case Some(now) => now)
      && (leaf'.connectedAt == if patch.connectedAt == None then leaf.connectedAt else patch.connectedAt)
      && leaf' == leaf.(status := leaf'.status, connectedAt := leaf'.connectedAt)
  {}

  /** The nodes stay where they are; only panes of the channel change. */
  lemma {:induction false} UpdateShape(node: Node, channelId: string, patch: Patch, path: seq<Side>)
    ensures var now := At(UpdateLeafByChannelId(node, channelId, patch), path);
      match At(node, path)
      case None => now == None
      case Some(Pane(l)) => now == Some(Pane(if l.channelId == channelId then Apply(l, patch) else l))
      case Some(Split(d, r, _, _)) => now.Some? && now.value.Split? && now.value.direction == d && now.value.ratio == r
    decreases |path|
  {
    if path != [] && node.Split? { UpdateShape(Child(node, path[0]), channelId, patch, path[1..]); }
  }

  // ----- moving -----

  /** A moved pane leaves its place as if it were closed, and then splits the target's. */
  lemma MoveShape(node: Node, source: string, target: string, direction: Direction, position: Position)
    requires HasId(CollectLeaves(node), source) && HasId(CollectLeaves(node), target) && source != target
    ensures Way(node, source) != [] && RemoveLeaf(node, source).Some?
    ensures var closed := RemoveLeaf(node, source).value;
      && Closed(node, closed, Way(node, source)) && MoveLeaf(node, source, target, direction, position).Some?
      && PlantedEverywhere(closed, MoveLeaf(node, source, target, direction, position).value, target, direction,
                           Find(CollectLeaves(node), source).value, position)
  {
    MoveLeafExact(node, source, target, direction, position);
    RemoveShape(node, source);
    RemoveExact(node, source);
    InsertShape(RemoveLeaf(node, source).value, target, direction, Find(CollectLeaves(node), source).value, position);
  }

  // ----- the actions -----

  /** Moving a pane to another workspace from one that does not have it changes nothing. */
  lemma MissingSource(ws: seq<Workspace>, k: nat, to: string, source: string, target: string, direction: Direction,
                      position: Position)
    requires DistinctWorkspaces(ws) && k < |ws| && to != ws[k].id && !HasId(CollectLeaves(ws[k].layout), source)
    ensures Do(ws, MovePane(source, ws[k].id, to, target, direction, position)) == ws
  {
    IndexUnique(ws, k);
  }

  /** The same workspace with another layout and focus. */
  predicate Renewed(w: Workspace, w': Workspace, layout: Node, focused: Option<string>) {
    w'.id == w.id && w'.title == w.title && w'.name == w.name && w'.layout == layout && w'.focusedPaneId == focused
  }

  /** A split changes one workspace, plants the new pane beside the old one, after it if nothing else is asked, and focuses it. */
  lemma SplitResult(ws: seq<Workspace>, k: nat, paneId: string, direction: Direction, leaf: Leaf, beside: Option<Position>)
    requires DistinctWorkspaces(ws) && k < |ws|
    ensures var ws' := Do(ws, SplitPane(ws[k].id, paneId, direction, leaf, beside));
      && |ws'| == |ws| && (forall j :: 0 <= j < |ws| && j != k ==> ws'[j] == ws[j])
      && Renewed(ws[k], ws'[k], ws'[k].layout, Some(leaf.paneId))
      && PlantedEverywhere(ws[k].layout, ws'[k].layout, paneId, direction, leaf,
                           if beside == None then After else beside.value)
  {
    ReplaceAt(ws, k, (w: Workspace) => DoSplit(w, paneId, direction, leaf, beside));
    InsertShape(ws[k].layout, paneId, direction, leaf, if beside == None then After else beside.value);
    hide InsertLeaf, PlantedEverywhere, Replace;
  }

  predicate Unknown(ws: seq<Workspace>, action: Action) {
    match action
    case SplitPane(id, _, _, _, _) => IndexOf(ws, id) == None
    case ClosePane(id, _) => IndexOf(ws, id) == None
    case MovePane(_, from, to, _, _, _) => IndexOf(ws, from) == None || IndexOf(ws, to) == None
    case _ => false
  }

  /** An action on a workspace that is not there changes nothing. */
  lemma UnknownWorkspace(ws: seq<Workspace>, action: Action)
    requires Unknown(ws, action)
    ensures Do(ws, action) == ws
  {}

  /** Where the focus goes when a pane is closed. */
  function FocusAfter(w: Workspace, paneId: string, layout: Node): Option<string> {
    if w.focusedPaneId == Some(paneId) then Some(CollectLeaves(layout)[0].paneId) else w.focusedPaneId
  }

  /**
   Closing a pane closes the gap, and moves the focus to the first pane if it was on the closed one.
   A pane that is not there leaves the layout alone, and the last one takes its workspace with it.
   */
  lemma CloseResult(ws: seq<Workspace>, k: nat, paneId: string)
    requires DistinctWorkspaces(ws) && k < |ws|
    ensures var ws' := Do(ws, ClosePane(ws[k].id, paneId));
      if HasId(CollectLeaves(ws[k].layout), paneId) && ws[k].layout.Pane? then ws' == ws[..k] + ws[k + 1..]
      else
        && |ws'| == |ws| && (forall j :: 0 <= j < |ws| && j != k ==> ws'[j] == ws[j])
        && (if HasId(CollectLeaves(ws[k].layout), paneId)
            then Way(ws[k].layout, paneId) != [] && Closed(ws[k].layout, ws'[k].layout, Way(ws[k].layout, paneId))
            else ws'[k].layout == ws[k].layout)
        && Renewed(ws[k], ws'[k], ws'[k].layout, FocusAfter(ws[k], paneId, ws'[k].layout))
  {
    ClosesOne(ws, k, paneId);
    RemovedWithin(ws[k], paneId);
    hide Do, RemoveLeaf, CollectLeaves, HasId, Closed, Way, FocusAfter, AfterRemoval, DistinctWorkspaces;
  }

  lemma ClosesOne(ws: seq<Workspace>, k: nat, paneId: string)
    requires DistinctWorkspaces(ws) && k < |ws|
    ensures Do(ws, ClosePane(ws[k].id, paneId)) ==
      if RemoveLeaf(ws[k].layout, paneId) == None then ws[..k] + ws[k + 1..]
      else ws[k := AfterRemoval(ws[k], paneId, RemoveLeaf(ws[k].layout, paneId).value)]
  {
    IndexUnique(ws, k);
    if RemoveLeaf(ws[k].layout, paneId) == None {
      DiscardAt(ws, k);
    } else {
      var layout := RemoveLeaf(ws[k].layout, paneId).value;
      RelayoutAt(ws, k, layout, AfterRemoval(ws[k], paneId, layout).focusedPaneId);
    }
    hide RemoveLeaf, Relayout, Discard, DistinctWorkspaces, IndexOf;
  }

  lemma RemovedWithin(w: Workspace, paneId: string)
    ensures RemoveLeaf(w.layout, paneId) == None <==> HasId(CollectLeaves(w.layout), paneId) && w.layout.Pane?
    ensures RemoveLeaf(w.layout, paneId).Some? ==>
      var w' := AfterRemoval(w, paneId, RemoveLeaf(w.layout, paneId).value);
      && Renewed(w, w', w'.layout, FocusAfter(w, paneId, w'.layout))
      && (if HasId(CollectLeaves(w.layout), paneId)
          then Way(w.layout, paneId) != [] && Closed(w.layout, w'.layout, Way(w.layout, paneId))
          else w'.layout == w.layout)
  {
    RemoveExact(w.layout, paneId);
    if HasId(CollectLeaves(w.layout), paneId) { RemoveShape(w.layout, paneId); }
    if w.layout.Pane? { OnePane(w.layout.leaf, paneId); }
    if RemoveLeaf(w.layout, paneId).Some? { FirstLeafIsFirst(RemoveLeaf(w.layout, paneId).value); }
    hide RemoveLeaf, HasId, Closed, DeleteFirst, FirstLeaf, Way;
  }

  /**
   A move inside a workspace: the pane leaves its place and splits the target's, and has the focus.
   Other workspaces stay, and with no such pane, or onto itself, the layout stays.
   */
  lemma MoveWithinResult(ws: seq<Workspace>, k: nat, source: string, target: string, direction: Direction,
                         position: Position)
    requires DistinctWorkspaces(ws) && k < |ws|
    ensures var ws' := Do(ws, MovePane(source, ws[k].id, ws[k].id, target, direction, position));
      var node, node' := ws[k].layout, ws'[k].layout;
      && |ws'| == |ws| && (forall j :: 0 <= j < |ws| && j != k ==> ws'[j] == ws[j])
      && (if !HasId(CollectLeaves(node), source) || source == target then Renewed(ws[k], ws'[k], node, Some(source))
          else if node.Pane? then ws' == ws
          else
            && Way(node, source) != [] && RemoveLeaf(node, source).Some?
            && var closed := RemoveLeaf(node, source).value;
               && Closed(node, closed, Way(node, source)) && Renewed(ws[k], ws'[k], node', Some(source))
               && PlantedEverywhere(closed, node', target, direction, Find(CollectLeaves(node), source).value, position))
  {
    ReplaceAt(ws, k, (w: Workspace) => MoveWithin(w, source, target, direction, position));
    assert Do(ws, MovePane(source, ws[k].id, ws[k].id, target, direction, position))
        == ws[k := MoveWithin(ws[k], source, target, direction, position)];
    hide Do, Replace;
    MovedWithin(ws[k], source, target, direction, position);
  }

  lemma MovedWithin(w: Workspace, source: string, target: string, direction: Direction, position: Position)
    ensures var w' := MoveWithin(w, source, target, direction, position);
      var node, node' := w.layout, w'.layout;
      if !HasId(CollectLeaves(node), source) || source == target then Renewed(w, w', node, Some(source))
      else if node.Pane? then w' == w
      else
        && Way(node, source) != [] && RemoveLeaf(node, source).Some?
        && var closed := RemoveLeaf(node, source).value;
           && Closed(node, closed, Way(node, source)) && Renewed(w, w', node', Some(source))
           && PlantedEverywhere(closed, node', target, direction, Find(CollectLeaves(node), source).value, position)
  {
    var node := w.layout;
    if HasId(CollectLeaves(node), source) && source != target {
      RemoveExact(node, source);
      RemoveShape(node, source);
      if node.Pane? {
        assert [node.leaf][0].paneId == source;
      } else {
        InsertShape(RemoveLeaf(node, source).value, target, direction, Find(CollectLeaves(node), source).value, position);
      }
      hide CollectLeaves, RemoveLeaf, InsertLeaf, PlantedEverywhere, Closed, DeleteFirst;
    }
  }

  /** Same splits everywhere, and panes with the same ids in the same places. */
  predicate Alike(a: Option<Node>, b: Option<Node>) {
    match a
    case None => b == None
    case Some(Pane(l)) => b.Some? && b.value.Pane? && b.value.leaf.paneId == l.paneId
    case Some(Split(d, r, _, _)) => b.Some? && b.value.Split? && b.value.direction == d && b.value.ratio == r
  }

  lemma {:induction false} PatchEachShape(node: Node, affected: seq<Leaf>, patch: Patch, path: seq<Side>)
    ensures Alike(At(node, path), At(PatchEach(node, affected, patch), path))
    decreases |affected|
  {
    if affected != [] {
      var n := |affected| - 1;
      PatchEachShape(node, affected[..n], patch, path);
      UpdateShape(PatchEach(node, affected[..n], patch), affected[n].channelId, patch, path);
      hide At;
    }
  }

  /** A patch moves no pane, changes no split, and touches nothing of a workspace but its panes. */
  lemma PatchResult(ws: seq<Workspace>, action: Action, k: nat, path: seq<Side>)
    requires (action.PatchChannel? || action.PatchConnection?) && k < |ws|
    ensures var ws' := Do(ws, action);
      && |ws'| == |ws| && Renewed(ws[k], ws'[k], ws'[k].layout, ws[k].focusedPaneId)
      && Alike(At(ws[k].layout, path), At(ws'[k].layout, path))
  {
    if action.PatchChannel? {
      UpdateShape(ws[k].layout, action.channelId, action.patch, path);
    } else {
      PatchEachShape(ws[k].layout, OnConnection(AllLeaves(ws), action.connectionId), action.patch, path);
    }
    hide At, PatchEach, UpdateLeafByChannelId;
  }
}
