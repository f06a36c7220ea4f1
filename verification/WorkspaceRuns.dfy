/**
 Runs of workspace actions, and the atom that holds the workspaces.
 */
module WorkspaceRuns {
  import opened Wrappers
  import opened LeafSeqs
  import opened PaneTree
  import opened Workspaces
  import opened WorkspaceSafety

  // ----- patching -----

  predicate Mentions(affected: seq<Leaf>, channelId: string) {
    exists k :: 0 <= k < |affected| && affected[k].channelId == channelId
  }

  /** Patching for several leaves, one after the other, patches each leaf whose channel is mentioned, once. */
  lemma {:induction false} PatchEachExact(layout: Node, affected: seq<Leaf>, patch: Patch)
    ensures var s, s' := CollectLeaves(layout), CollectLeaves(PatchEach(layout, affected, patch));
      |s'| == |s| && forall k :: 0 <= k < |s| ==> s'[k] == if Mentions(affected, s[k].channelId) then Apply(s[k],
          patch) else s[k]
    decreases |affected|
  {
    if affected != [] {
      var n := |affected| - 1;
      var fewer := affected[..n];
      PatchEachExact(layout, fewer, patch);
      UpdateLeafExact(PatchEach(layout, fewer, patch), affected[n].channelId, patch);
      forall id
        ensures Mentions(affected, id) <==> Mentions(fewer, id) || affected[n].channelId == id
      {
        if Mentions(fewer, id) {
          var k :| 0 <= k < |fewer| && fewer[k].channelId == id;
          assert affected[k].channelId == id;
        }
        if Mentions(affected, id) && affected[n].channelId != id {
          var k :| 0 <= k < |affected| && affected[k].channelId == id;
          assert fewer[k].channelId == id;
        }
      }
    }
  }

  lemma {:induction false} OnConnectionExact(s: seq<Leaf>, connectionId: string, leaf: Leaf)
    ensures leaf in OnConnection(s, connectionId) <==> leaf in s && leaf.connectionId == connectionId
  {
    if s != [] {
      OnConnectionExact(s[1..], connectionId, leaf);
      assert s == [s[0]] + s[1..];
    }
  }

  /** None twice, none left out: the leaves on the connection are listed as often as they occur. */
  lemma {:induction false} OnConnectionCounts(s: seq<Leaf>, connectionId: string, leaf: Leaf)
    ensures multiset(OnConnection(s, connectionId))[leaf]
         == if leaf.connectionId == connectionId then multiset(s)[leaf] else 0
  {
    if s != [] {
      OnConnectionCounts(s[1..], connectionId, leaf);
      assert s == [s[0]] + s[1..];
    }
  }

  lemma InAllLeaves(ws: seq<Workspace>, k: nat, leaf: Leaf)
    requires k < |ws| && leaf in CollectLeaves(ws[k].layout)
    ensures leaf in AllLeaves(ws)
  {
    AllLeavesAt(ws, k);
  }

  /** Channel ids tell connections apart. */
  predicate ChannelsKeyed(ws: seq<Workspace>) {
    forall a, b :: a in AllLeaves(ws) && b in AllLeaves(ws) && a.channelId == b.channelId
        ==> a.connectionId == b.connectionId
  }

  /** A status event of a connection reaches exactly the panes on that connection. */
  lemma PatchConnectionExact(ws: seq<Workspace>, connectionId: string, patch: Patch, k: nat, n: nat)
    requires ChannelsKeyed(ws) && k < |ws| && n < |CollectLeaves(ws[k].layout)|
    ensures var ws' := Do(ws, PatchConnection(connectionId, patch));
      var s, s' := CollectLeaves(ws[k].layout), CollectLeaves(ws'[k].layout);
      |s'| == |s| && s'[n] == if s[n].connectionId == connectionId then Apply(s[n], patch) else s[n]
  {
    var affected := OnConnection(AllLeaves(ws), connectionId);
    PatchEachExact(ws[k].layout, affected, patch);
    var leaf := CollectLeaves(ws[k].layout)[n];
    InAllLeaves(ws, k, leaf);
    OnConnectionExact(AllLeaves(ws), connectionId, leaf);
    if leaf.connectionId == connectionId {
      var i :| 0 <= i < |affected| && affected[i] == leaf;
      assert affected[i].channelId == leaf.channelId;
    } else if Mentions(affected, leaf.channelId) {
      var i :| 0 <= i < |affected| && affected[i].channelId == leaf.channelId;
      OnConnectionExact(AllLeaves(ws), connectionId, affected[i]);
    }
  }

  /** Same workspaces, same pane ids in the same places, same focus. */
  ghost predicate SameShape(ws: seq<Workspace>, ws': seq<Workspace>) {
    |ws'| == |ws| && forall k :: 0 <= k < |ws| ==>
      && ws'[k].id == ws[k].id && ws'[k].focusedPaneId == ws[k].focusedPaneId
      && SameIds(CollectLeaves(ws[k].layout), CollectLeaves(ws'[k].layout))
  }

  ghost predicate SameIds(s: seq<Leaf>, s': seq<Leaf>) {
    |s| == |s'| && forall k :: 0 <= k < |s| ==> s[k].paneId == s'[k].paneId
  }

  lemma PatchSameShape(ws: seq<Workspace>, action: Action)
    requires action.PatchChannel? || action.PatchConnection?
    ensures SameShape(ws, Do(ws, action))
  {
    forall k | 0 <= k < |ws|
      ensures SameIds(CollectLeaves(ws[k].layout), CollectLeaves(Do(ws, action)[k].layout))
    {
      if action.PatchChannel? {
        UpdateLeafExact(ws[k].layout, action.channelId, action.patch);
      } else {
        PatchEachExact(ws[k].layout, OnConnection(AllLeaves(ws), action.connectionId), action.patch);
      }
    }
  }

  lemma {:induction false} AllLeavesSameIds(ws: seq<Workspace>, ws': seq<Workspace>)
    requires SameShape(ws, ws')
    ensures SameIds(AllLeaves(ws), AllLeaves(ws'))
  {
    if ws != [] {
      AllLeavesSameIds(ws[1..], ws'[1..]);
      assert SameIds(CollectLeaves(ws[0].layout), CollectLeaves(ws'[0].layout));
    }
  }

  lemma SameShapeGood(ws: seq<Workspace>, ws': seq<Workspace>)
    requires Good(ws) && SameShape(ws, ws')
    ensures Good(ws')
  {
    AllLeavesSameIds(ws, ws');
    SameIdsSameBag(AllLeaves(ws), AllLeaves(ws'));
    forall k | 0 <= k < |ws'|
      ensures Focused(ws'[k])
    {
      assert Focused(ws[k]);
      var n :| 0 <= n < |CollectLeaves(ws[k].layout)| && CollectLeaves(ws[k].layout)[n].paneId
          == ws[k].focusedPaneId.value;
      assert CollectLeaves(ws'[k].layout)[n].paneId == ws[k].focusedPaneId.value;
    }
  }

  // ----- every action -----

  /** What a caller can check before the call. */
  predicate Safe(ws: seq<Workspace>, action: Action) {
    match action
    case SplitPane(id, paneId, _, leaf, _) => SafeSplit(ws, id, paneId, leaf.paneId)
    case MovePane(source, from, to, target, _, _) => SafeMove(ws, source, from, to, target)
    case _ => true
  }

  /** An action keeps the workspaces good exactly when it is safe. */
  lemma ActionSafeExactly(ws: seq<Workspace>, action: Action)
    requires Good(ws)
    ensures Good(Do(ws, action)) <==> Safe(ws, action)
  {
    hide Good, SafeSplit, AllLeaves, CollectLeaves;
    match action
    case SplitPane(id, paneId, direction, leaf, beside) => SplitSafeExactly(ws, id, paneId, direction, leaf, beside);
    case ClosePane(id, paneId) => CloseSafe(ws, id, paneId);
    case MovePane(source, from, to, target, direction, position) =>
      MoveSafeExactly(ws, source, from, to, target, direction, position);
    case PatchChannel(_, _) => PatchSameShape(ws, action); SameShapeGood(ws, Do(ws, action));
    case PatchConnection(_, _) => PatchSameShape(ws, action); SameShapeGood(ws, Do(ws, action));
  }

  /**
   A safe move keeps every pane, within a workspace and across; a workspace disappears exactly when
   its only pane moved to another one.
   */
  lemma MoveSafeExactly(ws: seq<Workspace>, source: string, from: string, to: string, target: string,
                        direction: Direction, position: Position)
    requires Good(ws)
    ensures var ws' := Do(ws, MovePane(source, from, to, target, direction, position));
      && (Good(ws') <==> SafeMove(ws, source, from, to, target))
      && (Good(ws') ==> SamePanes(ws, ws'))
      && |ws'| == if from != to && IndexOf(ws, to).Some? && IndexOf(ws, from).Some?
          && HoldsOnly(ws, IndexOf(ws, from).value, source)
                  then |ws| - 1 else |ws|
  {
    var a, b := IndexOf(ws, from), IndexOf(ws, to);
    if a == None || b == None {
      assert Do(ws, MovePane(source, from, to, target, direction, position)) == ws;
    } else if from == to {
      MoveWithinExactly(ws, a.value, source, target, direction, position);
    } else {
      MoveAcrossExactly(ws, a.value, b.value, source, target, direction, position);
    }
  }

  // ----- runs -----

  function DoAll(ws: seq<Workspace>, actions: seq<Action>): seq<Workspace>
    decreases |actions|
  {
    if actions == [] then ws else DoAll(Do(ws, actions[0]), actions[1..])
  }

  predicate AllSafe(ws: seq<Workspace>, actions: seq<Action>)
    decreases |actions|
  {
    actions == [] || (Safe(ws, actions[0]) && AllSafe(Do(ws, actions[0]), actions[1..]))
  }

  /** However long the run: pane ids stay unique everywhere and no focus dangles. */
  lemma {:induction false} RunStaysGood(ws: seq<Workspace>, actions: seq<Action>)
    requires Good(ws) && AllSafe(ws, actions)
    ensures Good(DoAll(ws, actions))
    decreases |actions|
  {
    if actions != [] {
      ActionSafeExactly(ws, actions[0]);
      RunStaysGood(Do(ws, actions[0]), actions[1..]);
    }
  }

  /** A run of moves ends with the panes it began with. */
  lemma {:induction false} MovesConserve(ws: seq<Workspace>, actions: seq<Action>)
    requires Good(ws) && AllSafe(ws, actions) && forall k :: 0 <= k < |actions| ==> actions[k].MovePane?
    ensures SamePanes(ws, DoAll(ws, actions))
    decreases |actions|
  {
    if actions != [] {
      var a := actions[0];
      ActionSafeExactly(ws, a);
      MoveSafeExactly(ws, a.sourcePaneId, a.sourceWorkspaceId, a.targetWorkspaceId, a.targetPaneId, a.direction,
          a.position);
      MovesConserve(Do(ws, a), actions[1..]);
    }
  }

  // ----- the atom -----

  /** workspacesAtom and the write-only atoms that change it. */
  class WorkspaceStore {
    var workspaces: seq<Workspace>

    constructor ()
      ensures workspaces == [] && Good(workspaces)
    {
      workspaces := [];
    }

    method Split(workspaceId: string, paneId: string, direction: Direction, newLeaf: Leaf, beside: Option<Position>)
      modifies this
      ensures workspaces == Do(old(workspaces), SplitPane(workspaceId, paneId, direction, newLeaf, beside))
      ensures Good(old(workspaces)) ==> (Good(workspaces) <==> SafeSplit(old(workspaces), workspaceId, paneId,
              newLeaf.paneId))
    {
      if Good(workspaces) { SplitSafeExactly(workspaces, workspaceId, paneId, direction, newLeaf, beside); }
      workspaces := Replace(workspaces, workspaceId, (w: Workspace) => DoSplit(w, paneId, direction, newLeaf, beside));
    }

    /** Returns the channel that the backend is asked to close. */
    method ClosePaneOf(workspaceId: string, paneId: string) returns (channelId: Option<string>)
      modifies this
      ensures workspaces == Do(old(workspaces), ClosePane(workspaceId, paneId))
      ensures Good(old(workspaces)) ==> Good(workspaces)
      ensures var at := IndexOf(old(workspaces), workspaceId);
        if at.Some? && HasId(CollectLeaves(old(workspaces)[at.value].layout), paneId)
        then channelId == Some(Find(CollectLeaves(old(workspaces)[at.value].layout), paneId).value.channelId)
        else channelId == None
    {
      if Good(workspaces) { CloseSafe(workspaces, workspaceId, paneId); }
      channelId := None;
      var at := IndexOf(workspaces, workspaceId);
      if at == None {
        return;
      }
      var leaf := Find(CollectLeaves(workspaces[at.value].layout), paneId);
      if leaf.Some? {
        channelId := Some(leaf.value.channelId);
      }
      workspaces := Close(workspaces, workspaceId, paneId);
    }

    method Move(source: string, from: string, to: string, target: string, direction: Direction, position: Position)
      modifies this
      ensures workspaces == Do(old(workspaces), MovePane(source, from, to, target, direction, position))
      ensures Good(old(workspaces)) && SafeMove(old(workspaces), source, from, to, target) ==>
        Good(workspaces) && SamePanes(old(workspaces), workspaces)
    {
      if Good(workspaces) { MoveSafeExactly(workspaces, source, from, to, target, direction, position); }
      workspaces := Do(workspaces, MovePane(source, from, to, target, direction, position));
    }

    /** patchLeavesByConnectionId: returns the leaves it affected. */
    method PatchByConnection(connectionId: string, patch: Patch) returns (affected: seq<Leaf>)
      modifies this
      ensures affected == OnConnection(AllLeaves(old(workspaces)), connectionId)
      ensures workspaces == Do(old(workspaces), PatchConnection(connectionId, patch))
    {
      affected := OnConnection(AllLeaves(workspaces), connectionId);
      if |affected| == 0 {
        assert workspaces == Do(workspaces, PatchConnection(connectionId, patch));
        return;
      }
      var before := workspaces;
      ghost var after := Do(before, PatchConnection(connectionId, patch));
      assert |after| == |before|;
      assert forall k :: 0 <= k < |before| ==> after[k] == before[k].(layout := PatchEach(before[k].layout,
             affected, patch));
      hide Do, PatchEach, OnConnection, AllLeaves;
      for k := 0 to |before|
        invariant |workspaces| == |before|
        invariant forall j :: 0 <= j < k ==> workspaces[j] == after[j]
        invariant forall j :: k <= j < |before| ==> workspaces[j] == before[j]
      {
        var layout := PatchLayout(before[k].layout, affected, patch);
        workspaces := workspaces[k := before[k].(layout := layout)];
      }
    }

    static method PatchLayout(layout: Node, affected: seq<Leaf>, patch: Patch) returns (r: Node)
      ensures r == PatchEach(layout, affected, patch)
    {
      r := layout;
      for i := 0 to |affected|
        invariant r == PatchEach(layout, affected[..i], patch)
      {
        assert affected[..i + 1][..i] == affected[..i];
        r := UpdateLeafByChannelId(r, affected[i].channelId, patch);
      }
      assert affected[..|affected|] == affected;
    }
  }
}
