/**
 No action loses or duplicates a pane or leaves the focus dangling: exactly which calls are safe,
 and what each action does to the panes.
 */
module WorkspaceSafety {
  import opened Wrappers
  import opened LeafSeqs
  import opened PaneTree
  import opened Workspaces

  ghost predicate UniqueBag(bag: multiset<string>) {
    forall id :: bag[id] <= 1
  }

  lemma GoodReplace(ws: seq<Workspace>, k: nat, w: Workspace)
    requires Good(ws) && k < |ws| && w.id == ws[k].id
    ensures Good(ws[k := w]) <==> Focused(w) && UniqueBag(IdBag(CollectLeaves(w.layout)) + IdBag(Elsewhere(ws, k)))
  {
    UniqueReplace(ws, k, w);
    FocusReplace(ws, k, w);
  }

  lemma UniqueReplace(ws: seq<Workspace>, k: nat, w: Workspace)
    requires k < |ws|
    ensures UniqueIds(AllLeaves(ws[k := w])) <==> UniqueBag(IdBag(CollectLeaves(w.layout)) + IdBag(Elsewhere(ws, k)))
  {
    BagsAt(ws[k := w], k);
    UpdateElsewhere(ws, k, w);
  }

  lemma FocusReplace(ws: seq<Workspace>, k: nat, w: Workspace)
    requires Good(ws) && k < |ws| && w.id == ws[k].id
    ensures DistinctWorkspaces(ws[k := w])
    ensures AllFocused(ws[k := w]) <==> Focused(w)
  {
    hide Focused, UniqueIds;
    assert ws[k := w][k] == w;
  }

  lemma GoodRemove(ws: seq<Workspace>, k: nat)
    requires Good(ws) && k < |ws|
    ensures Good(ws[..k] + ws[k + 1..])
  {
    OthersDistinct(ws, k);
    OthersFocused(ws, k);
    BagsAt(ws, k);
    hide Focused, AllLeaves, CollectLeaves, IdBag, DistinctWorkspaces, AllFocused;
    forall id
      ensures IdBag(Elsewhere(ws, k))[id] <= 1
    {
      assert IdBag(AllLeaves(ws))[id] <= 1;
    }
  }

  lemma OthersDistinct(ws: seq<Workspace>, k: nat)
    requires DistinctWorkspaces(ws) && k < |ws|
    ensures DistinctWorkspaces(ws[..k] + ws[k + 1..])
  {
    var ws' := ws[..k] + ws[k + 1..];
    forall i, j | 0 <= i < j < |ws'|
      ensures ws'[i].id != ws'[j].id
    {
      var i', j' := if i < k then i else i + 1, if j < k then j else j + 1;
      assert ws[i'].id != ws[j'].id;
    }
  }

  lemma OthersFocused(ws: seq<Workspace>, k: nat)
    requires AllFocused(ws) && k < |ws|
    ensures AllFocused(ws[..k] + ws[k + 1..])
  {
    var ws' := ws[..k] + ws[k + 1..];
    hide Focused;
    forall j | 0 <= j < |ws'|
      ensures Focused(ws'[j])
    {
      assert Focused(ws[if j < k then j else j + 1]);
    }
  }

  /** The panes of one workspace have unique ids, and share none with the others. */
  lemma UniqueAt(ws: seq<Workspace>, k: nat)
    requires Good(ws) && k < |ws|
    ensures UniqueBag(IdBag(CollectLeaves(ws[k].layout)) + IdBag(Elsewhere(ws, k)))
    ensures forall id :: IdBag(CollectLeaves(ws[k].layout))[id] + IdBag(Elsewhere(ws, k))[id] == IdBag(AllLeaves(ws))[id]
    ensures UniqueIds(CollectLeaves(ws[k].layout))
  {
    BagsAt(ws, k);
    hide AllLeaves, CollectLeaves, IdBag, Elsewhere;
    forall id
      ensures IdBag(CollectLeaves(ws[k].layout))[id] + IdBag(Elsewhere(ws, k))[id] <= 1
    {
      assert IdBag(AllLeaves(ws))[id] <= 1;
    }
  }

  // ----- splitting -----

  predicate SafeSplit(ws: seq<Workspace>, id: string, paneId: string, newId: string) {
    var at := IndexOf(ws, id);
    at == None ||
    var s := CollectLeaves(ws[at.value].layout);
    if HasId(s, paneId) then !HasId(AllLeaves(ws), newId) else HasId(s, newId)
  }

  lemma SplitLeaves(w: Workspace, paneId: string, direction: Direction, leaf: Leaf, beside: Option<Position>)
    ensures CollectLeaves(DoSplit(w, paneId, direction, leaf, beside).layout)
      == InsertBeside(CollectLeaves(w.layout), paneId, leaf, if beside.Some? then beside.value else After)
  {
    InsertLeafExact(w.layout, paneId, direction, leaf, if beside.Some? then beside.value else After);
  }

  /** Splitting keeps workspaces good exactly when the pane is there and the new id is not in use. */
  lemma SplitSafeExactly(ws: seq<Workspace>, id: string, paneId: string, direction: Direction, leaf: Leaf,
                         beside: Option<Position>)
    requires Good(ws)
    ensures Good(Do(ws, SplitPane(id, paneId, direction, leaf, beside))) <==> SafeSplit(ws, id, paneId, leaf.paneId)
  {
    var ws' := Do(ws, SplitPane(id, paneId, direction, leaf, beside));
    var at := IndexOf(ws, id);
    if at == None {
      assert ws' == ws;
    } else {
      var k := at.value;
      var s := CollectLeaves(ws[k].layout);
      var w := DoSplit(ws[k], paneId, direction, leaf, beside);
      var position := if beside.Some? then beside.value else After;
      ReplaceAt(ws, k, (w: Workspace) => DoSplit(w, paneId, direction, leaf, beside));
      assert ws' == ws[k := w];
      SplitLeaves(ws[k], paneId, direction, leaf, beside);
      GoodReplace(ws, k, w);
      UniqueAt(ws, k);
      IdBagHas(s, paneId);
      IdBagHas(s, leaf.paneId);
      IdBagHas(AllLeaves(ws), leaf.paneId);
      IdBagHas(CollectLeaves(w.layout), leaf.paneId);
      hide AllLeaves, CollectLeaves, IdBag, Elsewhere, InsertBeside, Good, UniqueIds;
      if HasId(s, paneId) {
        SplitPresent(s, paneId, leaf, position, IdBag(Elsewhere(ws, k)));
      } else {
        InsertBesideNone(s, paneId, leaf, position);
      }
    }
  }

  /** A new pane beside a present one: ids stay unique exactly when its id is new. */
  lemma SplitPresent(s: seq<Leaf>, paneId: string, leaf: Leaf, position: Position, others: multiset<string>)
    requires UniqueBag(IdBag(s) + others) && IdBag(s)[paneId] > 0
    ensures var s' := InsertBeside(s, paneId, leaf, position);
      && HasId(s', leaf.paneId)
      && multiset(s') == multiset(s) + multiset{leaf}
      && (UniqueBag(IdBag(s') + others) <==> (IdBag(s) + others)[leaf.paneId] == 0)
  {
    assert (IdBag(s) + others)[paneId] <= 1;
    InsertBesideOne(s, paneId, leaf, position);
    var s' := InsertBeside(s, paneId, leaf, position);
    IdBagHas(s', leaf.paneId);
    var bag, bag' := IdBag(s) + others, IdBag(s') + others;
    assert bag' == bag + multiset{leaf.paneId};
    if bag[leaf.paneId] == 0 {
      forall id
        ensures bag'[id] <= 1
      {
        assert bag[id] <= 1;
      }
    } else {
      assert bag'[leaf.paneId] > 1;
    }
  }

  // ----- closing -----

  lemma FewerIsUnique(bag: multiset<string>, fewer: multiset<string>, others: multiset<string>)
    requires UniqueBag(bag + others) && fewer <= bag
    ensures UniqueBag(fewer + others)
  {
    forall id
      ensures (fewer + others)[id] <= 1
    {
      assert (bag + others)[id] <= 1;
    }
  }

  lemma OthersStay(s: seq<Leaf>, id: string, other: string)
    requires HasId(s, other) && other != id
    ensures HasId(DeleteFirst(s, id), other)
  {
    DeleteFirstBag(s, id);
    IdBagHas(s, other);
    IdBagHas(DeleteFirst(s, id), other);
    if Find(s, id).Some? { FindHas(s, id); }
    hide HasId, IdBag, DeleteFirst;
  }

  lemma FindHas(s: seq<Leaf>, id: string)
    requires Find(s, id).Some?
    ensures Find(s, id).value.paneId == id
  {}

  lemma FewerIds(s: seq<Leaf>, id: string)
    ensures IdBag(DeleteFirst(s, id)) <= IdBag(s)
  {
    DeleteFirstBag(s, id);
    hide IdBag, DeleteFirst;
  }

  /** What one workspace keeps when a pane of it is removed and others stay. */
  lemma RemovalKeeps(w: Workspace, paneId: string, others: multiset<string>)
    requires Focused(w) && UniqueBag(IdBag(CollectLeaves(w.layout)) + others)
    ensures RemoveLeaf(w.layout, paneId) == None ==> CollectLeaves(w.layout) == [FirstLeaf(w.layout)]
    ensures RemoveLeaf(w.layout, paneId).Some? ==>
      var w' := AfterRemoval(w, paneId, RemoveLeaf(w.layout, paneId).value);
      Focused(w') && UniqueBag(IdBag(CollectLeaves(w'.layout)) + others)
  {
    RemoveExact(w.layout, paneId);
    if RemoveLeaf(w.layout, paneId).Some? {
      FocusMoves(w, paneId);
      FewerIds(CollectLeaves(w.layout), paneId);
      hide CollectLeaves, IdBag, DeleteFirst, RemoveLeaf, FirstLeaf, HasId, UniqueBag, Focused;
      FewerIsUnique(IdBag(CollectLeaves(w.layout)), IdBag(DeleteFirst(CollectLeaves(w.layout), paneId)), others);
    }
  }

  /** The focus goes to the first pane when the focused one is removed, and stays otherwise. */
  lemma FocusMoves(w: Workspace, paneId: string)
    requires Focused(w) && RemoveLeaf(w.layout, paneId).Some?
    ensures Focused(AfterRemoval(w, paneId, RemoveLeaf(w.layout, paneId).value))
  {
    RemoveExact(w.layout, paneId);
    var layout := RemoveLeaf(w.layout, paneId).value;
    FirstLeafIsFirst(layout);
    assert HasId(CollectLeaves(layout), FirstLeaf(layout).paneId);
    hide CollectLeaves, DeleteFirst, RemoveLeaf, FirstLeaf, HasId;
    if w.focusedPaneId.value != paneId { OthersStay(CollectLeaves(w.layout), paneId, w.focusedPaneId.value); }
  }

  ghost predicate SamePanes(ws: seq<Workspace>, ws': seq<Workspace>) {
    multiset(AllLeaves(ws')) == multiset(AllLeaves(ws))
  }

  ghost predicate Lost(ws: seq<Workspace>, ws': seq<Workspace>, leaf: Leaf) {
    multiset(AllLeaves(ws)) == multiset(AllLeaves(ws')) + multiset{leaf}
  }

  /** The only pane of workspace k has the id. */
  predicate HoldsOnly(ws: seq<Workspace>, k: nat, paneId: string)
    requires k < |ws|
  {
    ws[k].layout.Pane? && ws[k].layout.leaf.paneId == paneId
  }

  /**
   Closing a pane always keeps workspaces good.  The pane goes and every other pane stays; the
   workspace goes exactly when it held only that pane.
   */
  lemma CloseSafe(ws: seq<Workspace>, id: string, paneId: string)
    requires Good(ws)
    ensures var ws' := Do(ws, ClosePane(id, paneId));
      var at := IndexOf(ws, id);
      && Good(ws')
      && if at == None then ws' == ws
         else if !HasId(CollectLeaves(ws[at.value].layout), paneId) then SamePanes(ws, ws') && |ws'| == |ws|
         else Lost(ws, ws', Find(CollectLeaves(ws[at.value].layout), paneId).value)
              && |ws'| == if HoldsOnly(ws, at.value, paneId) then |ws| - 1 else |ws|
  {
    var at := IndexOf(ws, id);
    if at.Some? {
      RemoveExact(ws[at.value].layout, paneId);
      if HoldsOnly(ws, at.value, paneId) {
        CloseLast(ws, at.value, paneId);
      } else {
        CloseStays(ws, at.value, paneId);
      }
    }
  }

  lemma CloseLast(ws: seq<Workspace>, k: nat, paneId: string)
    requires Good(ws) && k < |ws| && HoldsOnly(ws, k, paneId)
    ensures var ws' := Do(ws, ClosePane(ws[k].id, paneId));
      && ws' == ws[..k] + ws[k + 1..] && Good(ws')
      && HasId(CollectLeaves(ws[k].layout), paneId)
      && Lost(ws, ws', Find(CollectLeaves(ws[k].layout), paneId).value)
  {
    IndexUnique(ws, k);
    DiscardAt(ws, k);
    GoodRemove(ws, k);
    OnePane(ws[k].layout.leaf, paneId);
    LastPane(ws, k);
  }

  lemma LastPane(ws: seq<Workspace>, k: nat)
    requires k < |ws| && ws[k].layout.Pane?
    ensures Lost(ws, ws[..k] + ws[k + 1..], ws[k].layout.leaf)
  {
    BagsAt(ws, k);
  }

  lemma Cancel(all: multiset<Leaf>, all': multiset<Leaf>, part: multiset<Leaf>, part': multiset<Leaf>,
               x: multiset<Leaf>)
    requires all' + part == all + part'
    ensures part == part' + x ==> all == all' + x
    ensures part == part' ==> all == all'
  {
    if part == part' + x {
      forall l
        ensures all[l] == (all' + x)[l]
      {
        assert (all' + part)[l] == (all + part')[l];
      }
    }
    if part == part' {
      forall l
        ensures all[l] == all'[l]
      {
        assert (all' + part)[l] == (all + part')[l];
      }
    }
  }

  /** Only the panes of workspace k change. */
  lemma PanesAfter(ws: seq<Workspace>, k: nat, w': Workspace)
    requires k < |ws|
    ensures multiset(AllLeaves(ws[k := w'])) + multiset(CollectLeaves(ws[k].layout))
         == multiset(AllLeaves(ws)) + multiset(CollectLeaves(w'.layout))
  {
    BagsAt(ws, k);
    BagsAt(ws[k := w'], k);
    UpdateElsewhere(ws, k, w');
    hide *;
  }

  function Shrunk(w: Workspace, paneId: string): Workspace
    requires RemoveLeaf(w.layout, paneId).Some?
  {
    AfterRemoval(w, paneId, RemoveLeaf(w.layout, paneId).value)
  }

  lemma CloseIsShrink(ws: seq<Workspace>, k: nat, paneId: string)
    requires Good(ws) && k < |ws| && RemoveLeaf(ws[k].layout, paneId).Some?
    ensures Do(ws, ClosePane(ws[k].id, paneId)) == ws[k := Shrunk(ws[k], paneId)]
  {
    var layout := RemoveLeaf(ws[k].layout, paneId).value;
    IndexUnique(ws, k);
    RelayoutAt(ws, k, layout, Shrunk(ws[k], paneId).focusedPaneId);
    hide Relayout, Good, IndexOf;
  }

  lemma ShrinkGood(ws: seq<Workspace>, k: nat, paneId: string)
    requires Good(ws) && k < |ws| && RemoveLeaf(ws[k].layout, paneId).Some?
    ensures Good(ws[k := Shrunk(ws[k], paneId)])
  {
    UniqueAt(ws, k);
    RemovalKeeps(ws[k], paneId, IdBag(Elsewhere(ws, k)));
    GoodReplace(ws, k, Shrunk(ws[k], paneId));
  }

  lemma ShrinkPanes(ws: seq<Workspace>, k: nat, paneId: string)
    requires k < |ws| && RemoveLeaf(ws[k].layout, paneId).Some?
    ensures var s := CollectLeaves(ws[k].layout);
      var ws' := ws[k := Shrunk(ws[k], paneId)];
      if HasId(s, paneId) then Lost(ws, ws', Find(s, paneId).value) else SamePanes(ws, ws')
  {
    var s := CollectLeaves(ws[k].layout);
    RemoveExact(ws[k].layout, paneId);
    PanesAfter(ws, k, Shrunk(ws[k], paneId));
    DeleteFirstBag(s, paneId);
    var ws' := ws[k := Shrunk(ws[k], paneId)];
    Cancel(multiset(AllLeaves(ws)), multiset(AllLeaves(ws')), multiset(s), multiset(DeleteFirst(s, paneId)),
           if HasId(s, paneId) then multiset{Find(s, paneId).value} else multiset{});
  }

  lemma CloseStays(ws: seq<Workspace>, k: nat, paneId: string)
    requires Good(ws) && k < |ws| && RemoveLeaf(ws[k].layout, paneId).Some?
    ensures var ws' := Do(ws, ClosePane(ws[k].id, paneId));
      var s := CollectLeaves(ws[k].layout);
      && Good(ws') && |ws'| == |ws|
      && if HasId(s, paneId) then Lost(ws, ws', Find(s, paneId).value) else SamePanes(ws, ws')
  {
    hide *;
    CloseIsShrink(ws, k, paneId);
    ShrinkGood(ws, k, paneId);
    ShrinkPanes(ws, k, paneId);
  }

  // ----- moving -----

  predicate SafeMove(ws: seq<Workspace>, source: string, from: string, to: string, target: string) {
    var a, b := IndexOf(ws, from), IndexOf(ws, to);
    a == None || b == None ||
    var here, there := CollectLeaves(ws[a.value].layout), CollectLeaves(ws[b.value].layout);
    if from == to then MoveFits(ws[a.value], source, target)
    else !HasId(here, source) || HasId(there, target)
  }

  /** A present pane moved beside another: the workspace keeps its panes and focuses the moved one. */
  lemma MoveHits(w: Workspace, source: string, target: string, direction: Direction, position: Position)
    requires UniqueIds(CollectLeaves(w.layout)) && source != target
    requires HasId(CollectLeaves(w.layout), source) && HasId(CollectLeaves(w.layout), target)
    ensures var w' := MoveWithin(w, source, target, direction, position);
      OneMore(DeleteFirst(CollectLeaves(w.layout), source), CollectLeaves(w'.layout), Find(CollectLeaves(w.layout),
          source).value)
      && Focused(w')
  {
    var s := CollectLeaves(w.layout);
    var rest := DeleteFirst(s, source);
    DeleteFirstBag(s, source);
    IdBagHas(s, target);
    assert IdBag(s)[target] == 1 && IdBag(rest)[target] == 1;
    MoveLeafExact(w.layout, source, target, direction, position);
    InsertBesideOne(rest, target, Find(s, source).value, position);
    IdBagHas(InsertBeside(rest, target, Find(s, source).value, position), source);
  }

  /** Moved to a place that does not exist, a pane of several is lost, and the focus with it. */
  lemma MoveMisses(w: Workspace, source: string, target: string, direction: Direction, position: Position)
    requires UniqueIds(CollectLeaves(w.layout)) && source != target && w.layout.Split?
    requires HasId(CollectLeaves(w.layout), source) && !HasId(CollectLeaves(w.layout), target)
    ensures !Focused(MoveWithin(w, source, target, direction, position))
  {
    var s := CollectLeaves(w.layout);
    var rest := DeleteFirst(s, source);
    RemoveExact(w.layout, source);
    DeleteFirstBag(s, source);
    IdBagHas(s, target);
    assert IdBag(s)[source] <= 1;
    InsertLeafExact(RemoveLeaf(w.layout, source).value, target, direction, Find(s, source).value, position);
    InsertBesideNone(rest, target, Find(s, source).value, position);
    IdBagHas(rest, source);
  }

  ghost predicate KeepsPanes(w: Workspace, w': Workspace) {
    && multiset(CollectLeaves(w'.layout)) == multiset(CollectLeaves(w.layout))
    && IdBag(CollectLeaves(w'.layout)) == IdBag(CollectLeaves(w.layout))
    && Focused(w')
  }

  predicate MoveFits(w: Workspace, source: string, target: string) {
    HasId(CollectLeaves(w.layout), source) && (source == target || HasId(CollectLeaves(w.layout),
        target) || w.layout.Pane?)
  }

  lemma MoveWithinLeaves(w: Workspace, source: string, target: string, direction: Direction, position: Position)
    requires UniqueIds(CollectLeaves(w.layout)) && Focused(w)
    ensures var w' := MoveWithin(w, source, target, direction, position);
      if MoveFits(w, source, target) then KeepsPanes(w, w') else !Focused(w')
  {
    var s := CollectLeaves(w.layout);
    if HasId(s, source) && source != target {
      if w.layout.Pane? {
        OnePane(w.layout.leaf, source);
        OnePane(w.layout.leaf, target);
      } else if HasId(s, target) {
        MoveHits(w, source, target, direction, position);
        DeleteFirstBag(s, source);
      } else {
        MoveMisses(w, source, target, direction, position);
      }
    }
  }

  /** Moving inside a workspace. */
  lemma MoveWithinExactly(ws: seq<Workspace>, k: nat, source: string, target: string, direction: Direction,
                          position: Position)
    requires Good(ws) && k < |ws|
    ensures var ws' := Do(ws, MovePane(source, ws[k].id, ws[k].id, target, direction, position));
      && (Good(ws') <==> MoveFits(ws[k], source, target))
      && (Good(ws') ==> SamePanes(ws, ws') && |ws'| == |ws|)
  {
    var w' := MoveWithin(ws[k], source, target, direction, position);
    ReplaceAt(ws, k, (w: Workspace) => MoveWithin(w, source, target, direction, position));
    assert Do(ws, MovePane(source, ws[k].id, ws[k].id, target, direction, position)) == ws[k := w'];
    UniqueAt(ws, k);
    GoodReplace(ws, k, w');
    PanesAfter(ws, k, w');
    assert Focused(ws[k]);
    MoveWithinLeaves(ws[k], source, target, direction, position);
    hide Good, AllLeaves, CollectLeaves, DeleteFirst, IdBag, Elsewhere, UniqueIds, UniqueBag, MoveWithin, MoveFits, Do;
    if MoveFits(ws[k], source, target) {
      Cancel(multiset(AllLeaves(ws)), multiset(AllLeaves(ws[k := w'])), multiset(CollectLeaves(ws[k].layout)),
             multiset(CollectLeaves(w'.layout)), multiset{});
    }
  }

  /** Splitting a present pane adds the new one and loses none. */
  lemma SplitPanes(ws: seq<Workspace>, k: nat, paneId: string, direction: Direction, leaf: Leaf,
                   beside: Option<Position>)
    requires Good(ws) && k < |ws| && HasId(CollectLeaves(ws[k].layout), paneId)
    ensures Lost(Do(ws, SplitPane(ws[k].id, paneId, direction, leaf, beside)), ws, leaf)
  {
    var s := CollectLeaves(ws[k].layout);
    var w := DoSplit(ws[k], paneId, direction, leaf, beside);
    ReplaceAt(ws, k, (w: Workspace) => DoSplit(w, paneId, direction, leaf, beside));
    assert Do(ws, SplitPane(ws[k].id, paneId, direction, leaf, beside)) == ws[k := w];
    SplitLeaves(ws[k], paneId, direction, leaf, beside);
    UniqueAt(ws, k);
    IdBagHas(s, paneId);
    SplitPresent(s, paneId, leaf, if beside.Some? then beside.value else After, IdBag(Elsewhere(ws, k)));
    PanesAfter(ws, k, w);
    hide Good, AllLeaves, CollectLeaves, IdBag, Elsewhere, UniqueIds, UniqueBag, DoSplit, Do;
    Cancel(multiset(AllLeaves(ws[k := w])), multiset(AllLeaves(ws)), multiset(CollectLeaves(w.layout)), multiset(s),
        multiset{leaf});
  }

  // ----- moving across workspaces -----

  /** Where workspace j stands after workspace k lost its pane. */
  function Shifted(j: nat, k: nat, gone: bool): nat
    requires j != k
  {
    if gone && j > k then j - 1 else j
  }

  /** MoveAcross with its two workspaces found: the target's changes first. */
  lemma AcrossInTwo(ws: seq<Workspace>, k: nat, j: nat, source: string, target: string, direction: Direction,
                    position: Position)
    requires Good(ws) && k < |ws| && j < |ws| && k != j && HasId(CollectLeaves(ws[k].layout), source)
    ensures ws[k].id != ws[j].id
    ensures var leaf := Find(CollectLeaves(ws[k].layout), source).value;
      var landed := ws[j := DoSplit(ws[j], target, direction, leaf, Some(position))];
      var newSource := RemoveLeaf(ws[k].layout, source);
      && DistinctWorkspaces(landed)
      && MoveAcross(ws, source, ws[k].id, ws[j].id, target, direction, position)
         == if newSource == None then Discard(landed, ws[k].id)
            else Replace(landed, ws[k].id, (w: Workspace) => AfterRemoval(w, source, newSource.value))
  {
    assert ws[k].id != ws[j].id by { if k < j { assert ws[k].id != ws[j].id; } else { assert ws[j].id != ws[k].id; } }
    var leaf := Find(CollectLeaves(ws[k].layout), source).value;
    var w' := DoSplit(ws[j], target, direction, leaf, Some(position));
    IndexUnique(ws, k);
    IndexUnique(ws, j);
    RelayoutAt(ws, j, w'.layout, Some(source));
    StillDistinct(ws, j, w');
    hide Good, CollectLeaves, Remove, RemoveLeaf, InsertLeaf, Find, HasId, Discard, AllLeaves, FirstLeaf, IndexOf,
        Replace,
         Relayout, DistinctWorkspaces, AfterRemoval;
  }

  lemma AcrossLands(ws: seq<Workspace>, k: nat, j: nat, source: string, target: string, direction: Direction,
                    position: Position)
    requires Good(ws) && k < |ws| && j < |ws| && k != j && HasId(CollectLeaves(ws[k].layout), source)
    ensures ws[k].id != ws[j].id
    ensures var leaf := Find(CollectLeaves(ws[k].layout), source).value;
      var landed := ws[j := DoSplit(ws[j], target, direction, leaf, Some(position))];
      && DistinctWorkspaces(landed)
      && Do(ws, MovePane(source, ws[k].id, ws[j].id, target, direction, position))
         == if RemoveLeaf(ws[k].layout, source) == None then Discard(landed, ws[k].id)
            else landed[k := Shrunk(ws[k], source)]
  {
    AcrossInTwo(ws, k, j, source, target, direction, position);
    var newSource := RemoveLeaf(ws[k].layout, source);
    var landed := ws[j := DoSplit(ws[j], target, direction, Find(CollectLeaves(ws[k].layout), source).value,
        Some(position))];
    hide Good, CollectLeaves, Remove, RemoveLeaf, Find, HasId, DoSplit, Discard, MoveAcross, Replace,
        DistinctWorkspaces, AfterRemoval;
    if newSource.Some? {
      ReplaceAt(landed, k, (w: Workspace) => AfterRemoval(w, source, newSource.value));
    }
  }

  lemma StillDistinct(ws: seq<Workspace>, j: nat, w: Workspace)
    requires DistinctWorkspaces(ws) && j < |ws| && w.id == ws[j].id
    ensures DistinctWorkspaces(ws[j := w])
  {}

  /** Moving a pane to another workspace is closing it here and splitting with it there. */
  lemma AcrossIsCloseThenSplit(ws: seq<Workspace>, k: nat, j: nat, source: string, target: string,
                               direction: Direction, position: Position)
    requires Good(ws) && k < |ws| && j < |ws| && k != j && HasId(CollectLeaves(ws[k].layout), source)
    ensures var leaf := Find(CollectLeaves(ws[k].layout), source).value;
      var ws1 := Do(ws, ClosePane(ws[k].id, source));
      var j' := Shifted(j, k, HoldsOnly(ws, k, source));
      && j' < |ws1| && ws1[j'] == ws[j]
      && Do(ws, MovePane(source, ws[k].id, ws[j].id, target, direction, position))
         == Do(ws1, SplitPane(ws[j].id, target, direction, leaf, Some(position)))
  {
    RemoveExact(ws[k].layout, source);
    if HoldsOnly(ws, k, source) {
      AcrossEmpties(ws, k, j, source, target, direction, position);
    } else {
      AcrossShrinks(ws, k, j, source, target, direction, position);
    }
  }

  lemma SplitAt(ws: seq<Workspace>, j: nat, target: string, direction: Direction, leaf: Leaf, position: Position)
    requires DistinctWorkspaces(ws) && j < |ws|
    ensures Do(ws, SplitPane(ws[j].id, target, direction, leaf, Some(position)))
      == ws[j := DoSplit(ws[j], target, direction, leaf, Some(position))]
  {
    hide DoSplit;
    ReplaceAt(ws, j, (w: Workspace) => DoSplit(w, target, direction, leaf, Some(position)));
  }

  lemma AcrossShrinks(ws: seq<Workspace>, k: nat, j: nat, source: string, target: string, direction: Direction,
                      position: Position)
    requires Good(ws) && k < |ws| && j < |ws| && k != j && HasId(CollectLeaves(ws[k].layout), source)
    requires RemoveLeaf(ws[k].layout, source).Some?
    ensures var ws1 := Do(ws, ClosePane(ws[k].id, source));
      && j < |ws1| && ws1[j] == ws[j]
      && Do(ws, MovePane(source, ws[k].id, ws[j].id, target, direction, position))
         == Do(ws1, SplitPane(ws[j].id, target, direction, Find(CollectLeaves(ws[k].layout), source).value,
             Some(position)))
  {
    AcrossLands(ws, k, j, source, target, direction, position);
    CloseIsShrink(ws, k, source);
    ShrinkGood(ws, k, source);
    var w, leaf := Shrunk(ws[k], source), Find(CollectLeaves(ws[k].layout), source).value;
    var landed := DoSplit(ws[j], target, direction, leaf, Some(position));
    assert ws[j := landed][k := w] == ws[k := w][j := landed];
    assert DistinctWorkspaces(ws[k := w]);
    hide *;
    SplitAt(ws[k := w], j, target, direction, leaf, position);
  }

  lemma GoneAndChanged(ws: seq<Workspace>, k: nat, j: nat, w: Workspace)
    requires k < |ws| && j < |ws| && k != j
    ensures var fewer, j' := ws[..k] + ws[k + 1..], Shifted(j, k, true);
      j' < |fewer| && fewer[j'] == ws[j] && fewer[j' := w] == ws[j := w][..k] + ws[j := w][k + 1..]
    ensures ws[j := w][k] == ws[k]
  {}

  lemma AcrossEmpties(ws: seq<Workspace>, k: nat, j: nat, source: string, target: string, direction: Direction,
                      position: Position)
    requires Good(ws) && k < |ws| && j < |ws| && k != j && HoldsOnly(ws, k, source)
    ensures HasId(CollectLeaves(ws[k].layout), source)
    ensures var ws1 := Do(ws, ClosePane(ws[k].id, source));
      var j' := Shifted(j, k, true);
      && j' < |ws1| && ws1[j'] == ws[j]
      && Do(ws, MovePane(source, ws[k].id, ws[j].id, target, direction, position))
         == Do(ws1, SplitPane(ws[j].id, target, direction, Find(CollectLeaves(ws[k].layout), source).value,
             Some(position)))
  {
    CloseLast(ws, k, source);
    AcrossLands(ws, k, j, source, target, direction, position);
    RemoveExact(ws[k].layout, source);
    var leaf := Find(CollectLeaves(ws[k].layout), source).value;
    var landed := DoSplit(ws[j], target, direction, leaf, Some(position));
    var fewer, j' := ws[..k] + ws[k + 1..], Shifted(j, k, true);
    assert DistinctWorkspaces(fewer) && RemoveLeaf(ws[k].layout, source) == None;
    hide *;
    GoneAndChanged(ws, k, j, landed);
    DiscardAt(ws[j := landed], k);
    SplitAt(fewer, j', target, direction, leaf, position);
  }

  /** Moving across workspaces keeps them good exactly when the source is missing or the target is there. */
  lemma MoveAcrossExactly(ws: seq<Workspace>, k: nat, j: nat, source: string, target: string,
                          direction: Direction, position: Position)
    requires Good(ws) && k < |ws| && j < |ws| && k != j
    ensures var ws' := Do(ws, MovePane(source, ws[k].id, ws[j].id, target, direction, position));
      && (Good(ws') <==> !HasId(CollectLeaves(ws[k].layout), source) || HasId(CollectLeaves(ws[j].layout), target))
      && (Good(ws') ==> SamePanes(ws, ws'))
      && |ws'| == if HoldsOnly(ws, k, source) then |ws| - 1 else |ws|
  {
    assert ws[k].id != ws[j].id by { if k < j { assert ws[k].id != ws[j].id; } else { assert ws[j].id != ws[k].id; } }
    IndexUnique(ws, k);
    IndexUnique(ws, j);
    if HasId(CollectLeaves(ws[k].layout), source) {
      MoveAcrossPresent(ws, k, j, source, target, direction, position);
    } else {
      if ws[k].layout.Pane? { OnePane(ws[k].layout.leaf, source); }
      assert Do(ws, MovePane(source, ws[k].id, ws[j].id, target, direction, position)) == ws;
    }
  }

  lemma MoveAcrossPresent(ws: seq<Workspace>, k: nat, j: nat, source: string, target: string,
                          direction: Direction, position: Position)
    requires Good(ws) && k < |ws| && j < |ws| && k != j && HasId(CollectLeaves(ws[k].layout), source)
    ensures var ws' := Do(ws, MovePane(source, ws[k].id, ws[j].id, target, direction, position));
      && (Good(ws') <==> HasId(CollectLeaves(ws[j].layout), target))
      && (Good(ws') ==> SamePanes(ws, ws'))
      && |ws'| == if HoldsOnly(ws, k, source) then |ws| - 1 else |ws|
  {
    var leaf := Find(CollectLeaves(ws[k].layout), source).value;
    var ws1 := Do(ws, ClosePane(ws[k].id, source));
    var j' := Shifted(j, k, HoldsOnly(ws, k, source));
    IndexUnique(ws, k);
    CloseSafe(ws, ws[k].id, source);
    AcrossIsCloseThenSplit(ws, k, j, source, target, direction, position);
    IndexUnique(ws1, j');
    SplitSafeExactly(ws1, ws[j].id, target, direction, leaf, Some(position));
    GoneEverywhere(ws, ws1, leaf);
    PartOfAll(ws1, j', source);
    if HasId(CollectLeaves(ws[j].layout), target) {
      SplitPanes(ws1, j', target, direction, leaf, Some(position));
    }
    assert |Do(ws1, SplitPane(ws[j].id, target, direction, leaf, Some(position)))| == |ws1|;
  }

  lemma PartOfAll(ws: seq<Workspace>, k: nat, id: string)
    requires k < |ws|
    ensures HasId(CollectLeaves(ws[k].layout), id) ==> HasId(AllLeaves(ws), id)
  {
    BagsAt(ws, k);
    IdBagHas(CollectLeaves(ws[k].layout), id);
    IdBagHas(AllLeaves(ws), id);
  }

  /** A pane that went is nowhere any more. */
  lemma GoneEverywhere(ws: seq<Workspace>, ws': seq<Workspace>, leaf: Leaf)
    requires Good(ws) && Lost(ws, ws', leaf)
    ensures !HasId(AllLeaves(ws'), leaf.paneId)
  {
    BagOfBag(AllLeaves(ws), AllLeaves(ws') + [leaf]);
    IdBagConcat(AllLeaves(ws'), [leaf]);
    BagsCons(leaf, []);
    IdBagHas(AllLeaves(ws'), leaf.paneId);
    assert IdBag(AllLeaves(ws))[leaf.paneId] <= 1;
  }

  /** Equal panes, in any order, have equal ids. */
  lemma {:induction false} BagOfBag(s: seq<Leaf>, s': seq<Leaf>)
    requires multiset(s) == multiset(s')
    ensures IdBag(s) == IdBag(s')
    decreases |s|
  {
    if s == [] {
      assert |multiset(s')| == |s'|;
    } else {
      var x, tail := s[0], s[1..];
      BagsCons(x, tail);
      assert s == [x] + tail;
      hide IdBag;
      assert x in multiset(s');
      var a, b := SplitOn(s', x);
      BagSplits(a, x, b);
      BagCancel(multiset(tail), multiset(a + b), x);
      BagOfBag(tail, a + b);
    }
  }

  lemma SplitOn(s: seq<Leaf>, x: Leaf) returns (a: seq<Leaf>, b: seq<Leaf>)
    requires x in s
    ensures s == a + [x] + b
  {
    var k :| 0 <= k < |s| && s[k] == x;
    a, b := s[..k], s[k + 1..];
  }

  lemma BagCancel(m: multiset<Leaf>, m': multiset<Leaf>, x: Leaf)
    requires multiset{x} + m == m' + multiset{x}
    ensures m == m'
  {
    forall y
      ensures m[y] == m'[y]
    {
      assert (multiset{x} + m)[y] == (m' + multiset{x})[y];
    }
  }

  lemma OneId(x: Leaf)
    ensures IdBag([x]) == multiset{x.paneId}
  {}

  lemma BagSplits(a: seq<Leaf>, x: Leaf, b: seq<Leaf>)
    ensures multiset(a + [x] + b) == multiset(a + b) + multiset{x}
    ensures IdBag(a + [x] + b) == IdBag(a + b) + multiset{x.paneId}
  {
    IdBagConcat(a + [x], b);
    IdBagConcat(a, [x]);
    IdBagConcat(a, b);
    OneId(x);
    hide *;
  }
}
