/**
 Workspaces and the actions on their panes (frontend/src/store/workspaceActions.ts).
 */
module Workspaces {
  import opened Wrappers
  import opened LeafSeqs
  import opened PaneTree

  datatype Workspace = Workspace(
    id: string,
    title: string,               // the `label` field: the first pane's host label
    name: Option<string>,
    layout: Node,
    focusedPaneId: Option<string>)

  datatype Action =
    | SplitPane(workspaceId: string, paneId: string, direction: Direction, newLeaf: Leaf, beside: Option<Position>)
    | ClosePane(workspaceId: string, paneId: string)
    | MovePane(sourcePaneId: string, sourceWorkspaceId: string, targetWorkspaceId: string, targetPaneId: string,
               direction: Direction, position: Position)
    | PatchChannel(channelId: string, patch: Patch)
    | PatchConnection(connectionId: string, patch: Patch)

  // ----- the actions -----

  /** Array.find, by index. */
  function IndexOf(ws: seq<Workspace>, id: string): (r: Option<nat>)
    ensures r.Some? ==> r.value < |ws| && ws[r.value].id == id
    ensures r == None ==> forall k :: 0 <= k < |ws| ==> ws[k].id != id
  {
    if ws == [] then None
    else if ws[0].id == id then Some(0)
    else
      assert forall k :: 0 < k < |ws| ==> ws[k] == ws[1..][k - 1];
      var r := IndexOf(ws[1..], id);
      if r == None then None else Some(r.value + 1)
  }

  /** Array.map: every workspace with the id changes. */
  function Replace(ws: seq<Workspace>, id: string, f: Workspace -> Workspace): (r: seq<Workspace>)
    ensures |r| == |ws|
    ensures forall k :: 0 <= k < |ws| ==> r[k] == if ws[k].id == id then f(ws[k]) else ws[k]
  {
    seq(|ws|, k requires 0 <= k < |ws| => if ws[k].id == id then f(ws[k]) else ws[k])
  }

  /** Array.filter: every workspace with the id goes. */
  function Discard(ws: seq<Workspace>, id: string): seq<Workspace> {
    if ws == [] then []
    else (if ws[0].id == id then [] else [ws[0]]) + Discard(ws[1..], id)
  }

  function DoSplit(w: Workspace, paneId: string, direction: Direction, leaf: Leaf,
                   position: Option<Position>): Workspace {
    w.(layout := if position.Some? then InsertLeaf(w.layout, paneId, direction, leaf, position.value)
                 else SplitLeaf(w.layout, paneId, direction, leaf),
       focusedPaneId := Some(leaf.paneId))
  }

  /** A workspace after its pane went and some panes stayed. */
  function AfterRemoval(w: Workspace, paneId: string, layout: Node): Workspace {
    w.(layout := layout,
       focusedPaneId := if w.focusedPaneId == Some(paneId) then Some(FirstLeaf(layout).paneId) else w.focusedPaneId)
  }

  /** Array.map: the workspace with the id gets a layout and a focused pane. */
  function Relayout(ws: seq<Workspace>, id: string, layout: Node, focused: Option<string>): seq<Workspace> {
    Replace(ws, id, (w: Workspace) => w.(layout := layout, focusedPaneId := focused))
  }

  function Close(ws: seq<Workspace>, id: string, paneId: string): seq<Workspace> {
    var at := IndexOf(ws, id);
    if at == None then ws
    else
      var layout := RemoveLeaf(ws[at.value].layout, paneId);
      if layout == None then Discard(ws, id)
      else
        var focused := AfterRemoval(ws[at.value], paneId, layout.value).focusedPaneId;
        Relayout(ws, id, layout.value, focused)
  }

  function MoveWithin(w: Workspace, source: string, target: string, direction: Direction,
                      position: Position): Workspace {
    var layout := MoveLeaf(w.layout, source, target, direction, position);
    if layout == None then w
    else w.(layout := layout.value, focusedPaneId := Some(source))
  }

  function MoveAcross(ws: seq<Workspace>, source: string, from: string, to: string, target: string,
                      direction: Direction, position: Position): seq<Workspace>
  {
    var a, b := IndexOf(ws, from), IndexOf(ws, to);
    if a == None || b == None then ws
    else
      var leaf := Find(CollectLeaves(ws[a.value].layout), source);
      if leaf == None then ws
      else
        var newSource := RemoveLeaf(ws[a.value].layout, source);
        var newTarget := InsertLeaf(ws[b.value].layout, target, direction, leaf.value, position);
        var landed := Relayout(ws, to, newTarget, Some(source));
        if newSource == None then Discard(landed, from)
        else Replace(landed, from, (w: Workspace) => AfterRemoval(w, source, newSource.value))
  }

  function PatchEach(layout: Node, affected: seq<Leaf>, patch: Patch): Node
    decreases |affected|
  {
    if affected == [] then layout
    else UpdateLeafByChannelId(PatchEach(layout, affected[..|affected| - 1], patch),
        affected[|affected| - 1].channelId, patch)
  }

  function OnConnection(s: seq<Leaf>, connectionId: string): seq<Leaf> {
    if s == [] then []
    else (if s[0].connectionId == connectionId then [s[0]] else []) + OnConnection(s[1..], connectionId)
  }

  function Do(ws: seq<Workspace>, action: Action): seq<Workspace> {
    match action
    case SplitPane(id, paneId, direction, leaf, position) =>
      Replace(ws, id, (w: Workspace) => DoSplit(w, paneId, direction, leaf, position))
    case ClosePane(id, paneId) => Close(ws, id, paneId)
    case MovePane(source, from, to, target, direction, position) =>
      if from == to then Replace(ws, from, (w: Workspace) => MoveWithin(w, source, target, direction, position))
      else MoveAcross(ws, source, from, to, target, direction, position)
    case PatchChannel(channelId, patch) =>
      seq(|ws|, k requires 0 <= k < |ws| => ws[k].(layout := UpdateLeafByChannelId(ws[k].layout, channelId, patch)))
    case PatchConnection(connectionId, patch) =>
      var affected := OnConnection(AllLeaves(ws), connectionId);
      seq(|ws|, k requires 0 <= k < |ws| => ws[k].(layout := PatchEach(ws[k].layout, affected, patch)))
  }

  // ----- what the actions are meant to keep -----

  /** Every pane of every workspace, in order. */
  function AllLeaves(ws: seq<Workspace>): seq<Leaf> {
    if ws == [] then [] else CollectLeaves(ws[0].layout) + AllLeaves(ws[1..])
  }

  predicate Focused(w: Workspace) {
    w.focusedPaneId.Some? && HasId(CollectLeaves(w.layout), w.focusedPaneId.value)
  }

  predicate DistinctWorkspaces(ws: seq<Workspace>) {
    forall j, k :: 0 <= j < k < |ws| ==> ws[j].id != ws[k].id
  }

  predicate AllFocused(ws: seq<Workspace>) {
    forall k :: 0 <= k < |ws| ==> Focused(ws[k])
  }

  /** Workspace ids and pane ids are unique, and every workspace focuses one of its own panes. */
  ghost predicate Good(ws: seq<Workspace>) {
    && DistinctWorkspaces(ws)
    && UniqueIds(AllLeaves(ws))
    && AllFocused(ws)
  }

  // ----- one workspace changes or goes -----

  lemma {:induction false} AllLeavesAt(ws: seq<Workspace>, k: nat)
    requires k < |ws|
    ensures AllLeaves(ws) == AllLeaves(ws[..k]) + CollectLeaves(ws[k].layout) + AllLeaves(ws[k + 1..])
  {
    if k > 0 {
      AllLeavesAt(ws[1..], k - 1);
      assert ws[1..][..k - 1] == ws[..k][1..] && ws[1..][k..] == ws[k + 1..];
    }
  }

  lemma {:induction false} AllLeavesConcat(a: seq<Workspace>, b: seq<Workspace>)
    ensures AllLeaves(a + b) == AllLeaves(a) + AllLeaves(b)
  {
    if a == [] {
      assert a + b == b;
    } else {
      assert (a + b)[1..] == a[1..] + b;
      AllLeavesConcat(a[1..], b);
    }
  }

  lemma IndexUnique(ws: seq<Workspace>, k: nat)
    requires DistinctWorkspaces(ws) && k < |ws|
    ensures IndexOf(ws, ws[k].id) == Some(k)
  {
    var r := IndexOf(ws, ws[k].id);
    assert r.Some?;
  }

  lemma ReplaceAt(ws: seq<Workspace>, k: nat, f: Workspace -> Workspace)
    requires DistinctWorkspaces(ws) && k < |ws|
    ensures Replace(ws, ws[k].id, f) == ws[k := f(ws[k])]
  {
    forall j | 0 <= j < |ws| && j != k
      ensures ws[j].id != ws[k].id
    {
      if j < k { assert ws[j].id != ws[k].id; } else { assert ws[k].id != ws[j].id; }
    }
  }

  lemma RelayoutAt(ws: seq<Workspace>, k: nat, layout: Node, focused: Option<string>)
    requires DistinctWorkspaces(ws) && k < |ws|
    ensures Relayout(ws, ws[k].id, layout, focused) == ws[k := ws[k].(layout := layout, focusedPaneId := focused)]
  {
    ReplaceAt(ws, k, (w: Workspace) => w.(layout := layout, focusedPaneId := focused));
    hide Replace;
  }

  lemma {:induction false} DiscardAbsent(ws: seq<Workspace>, id: string)
    requires forall k :: 0 <= k < |ws| ==> ws[k].id != id
    ensures Discard(ws, id) == ws
  {
    if ws != [] {
      DiscardAbsent(ws[1..], id);
    }
  }

  lemma {:induction false} DiscardAt(ws: seq<Workspace>, k: nat)
    requires DistinctWorkspaces(ws) && k < |ws|
    ensures Discard(ws, ws[k].id) == ws[..k] + ws[k + 1..]
  {
    if k == 0 {
      forall j | 0 <= j < |ws[1..]|
        ensures ws[1..][j].id != ws[0].id
      {
        assert ws[0].id != ws[j + 1].id;
      }
      DiscardAbsent(ws[1..], ws[0].id);
    } else {
      assert ws[0].id != ws[k].id;
      DiscardAt(ws[1..], k - 1);
      assert ws[..k] + ws[k + 1..] == [ws[0]] + (ws[1..][..k - 1] + ws[1..][k..]);
    }
  }

  /** The panes that are not in workspace k. */
  function Elsewhere(ws: seq<Workspace>, k: nat): seq<Leaf>
    requires k < |ws|
  {
    AllLeaves(ws[..k] + ws[k + 1..])
  }

  lemma BagsAt(ws: seq<Workspace>, k: nat)
    requires k < |ws|
    ensures multiset(AllLeaves(ws)) == multiset(CollectLeaves(ws[k].layout)) + multiset(Elsewhere(ws, k))
    ensures IdBag(AllLeaves(ws)) == IdBag(CollectLeaves(ws[k].layout)) + IdBag(Elsewhere(ws, k))
  {
    AllLeavesAt(ws, k);
    AllLeavesConcat(ws[..k], ws[k + 1..]);
    BagsOf(AllLeaves(ws[..k]), CollectLeaves(ws[k].layout), AllLeaves(ws[k + 1..]));
    hide *;
  }

  lemma BagsOf(a: seq<Leaf>, b: seq<Leaf>, c: seq<Leaf>)
    ensures multiset(a + b + c) == multiset(b) + multiset(a + c)
    ensures IdBag(a + b + c) == IdBag(b) + IdBag(a + c)
  {
    hide IdBag;
    IdBagConcat(a + b, c);
    IdBagConcat(a, b);
    IdBagConcat(a, c);
  }

  lemma UpdateElsewhere(ws: seq<Workspace>, k: nat, w: Workspace)
    requires k < |ws|
    ensures Elsewhere(ws[k := w], k) == Elsewhere(ws, k)
  {
    assert ws[k := w][..k] == ws[..k] && ws[k := w][k + 1..] == ws[k + 1..];
  }
}
