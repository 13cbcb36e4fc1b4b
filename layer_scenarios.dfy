/** The layer trees of the editor's edit-target scenarios, and the
    edit-target outcome of removing sub-layer entries from them. */
module EditorScenarios {
  import opened Wrappers
  import opened LayerPaths
  import opened SubLayerLists
  import opened LayerGraph
  import opened LayerEditor
  import opened EditHistory

  const RootId: LayerId := AnonId(0)
  const ColorId: LayerId := AnonId(1)
  const MyLayerId: LayerId := AnonId(2)
  const RedId: LayerId := AnonId(3)
  const DarkRedId: LayerId := AnonId(6)
  const MySubLayerId: LayerId := AnonId(8)
  const SharedId: LayerId := FileId(["tmp", "sharedLayer.usda"])

  function Leaf(): Layer {
    Layer([], Unlocked)
  }

  /** Root lists MyLayer then Color; Color lists Blue, Green, Red; Red lists
      LightRed, DarkRed; MyLayer lists MySubLayer (anonymous layers added
      one by one, each added first). */
  function ColorTree(): Arena {
    map[
      RootId := Layer([AnonRef(2), AnonRef(1)], Unlocked),
      ColorId := Layer([AnonRef(5), AnonRef(4), AnonRef(3)], Unlocked),
      MyLayerId := Layer([AnonRef(8)], Unlocked),
      RedId := Layer([AnonRef(7), AnonRef(6)], Unlocked),
      AnonId(4) := Leaf(), AnonId(5) := Leaf(), DarkRedId := Leaf(), AnonId(7) := Leaf(),
      MySubLayerId := Leaf()]
  }

  lemma ColorTreeReachesDarkRed()
    ensures Reachable(ColorTree(), {}, RootId, DarkRedId)
  {
    var l := ColorTree();
    assert AnonRef(1) in l[RootId].subPaths && AnonRef(3) in l[ColorId].subPaths && AnonRef(6) in l[RedId].subPaths;
    assert IsPath(l, {}, [RootId, ColorId, RedId, DarkRedId]);
  }

  /** Removing position 2 of Color drops Red ... */
  lemma RemovedRed()
    ensures RemoveIndices(ColorTree()[ColorId].subPaths, {2}) == [AnonRef(5), AnonRef(4)]
  {
    var colors := [AnonRef(5), AnonRef(4), AnonRef(3)];
    assert ColorTree()[ColorId].subPaths == colors;
    RemoveIndicesSingle(colors, 2);
    assert RemoveAt(colors, 2) == [AnonRef(5), AnonRef(4)];
  }

  /** ... and removing position 1 of the root drops Color. */
  lemma RemovedColor()
    ensures RemoveIndices(ColorTree()[RootId].subPaths, {1}) == [AnonRef(2)]
  {
    var top := [AnonRef(2), AnonRef(1)];
    assert ColorTree()[RootId].subPaths == top;
    RemoveIndicesSingle(top, 1);
    assert RemoveAt(top, 1) == [AnonRef(2)];
  }

  /** Color's list without Red. */
  function ColorTreeWithoutRed(): Arena {
    map[
      RootId := Layer([AnonRef(2), AnonRef(1)], Unlocked),
      ColorId := Layer([AnonRef(5), AnonRef(4)], Unlocked),
      MyLayerId := Layer([AnonRef(8)], Unlocked),
      RedId := Layer([AnonRef(7), AnonRef(6)], Unlocked),
      AnonId(4) := Leaf(), AnonId(5) := Leaf(), DarkRedId := Leaf(), AnonId(7) := Leaf(),
      MySubLayerId := Leaf()]
  }

  /** The root's list without Color. */
  function ColorTreeWithoutColor(): Arena {
    map[
      RootId := Layer([AnonRef(2)], Unlocked),
      ColorId := Layer([AnonRef(5), AnonRef(4), AnonRef(3)], Unlocked),
      MyLayerId := Layer([AnonRef(8)], Unlocked),
      RedId := Layer([AnonRef(7), AnonRef(6)], Unlocked),
      AnonId(4) := Leaf(), AnonId(5) := Leaf(), DarkRedId := Leaf(), AnonId(7) := Leaf(),
      MySubLayerId := Leaf()]
  }

  lemma WithoutRedEquals(kept: seq<SubPath>)
    requires kept == [AnonRef(5), AnonRef(4)]
    ensures WithSubPaths(ColorTree(), ColorId, kept) == ColorTreeWithoutRed()
  {
  }

  lemma WithoutColorEquals(kept: seq<SubPath>)
    requires kept == [AnonRef(2)]
    ensures WithSubPaths(ColorTree(), RootId, kept) == ColorTreeWithoutColor()
  {
  }

  lemma WithoutRedUnreachable()
    ensures !Reachable(ColorTreeWithoutRed(), {}, RootId, DarkRedId)
  {
    var l := ColorTreeWithoutRed();
    var kept := {RootId, ColorId, MyLayerId, AnonId(4), AnonId(5), MySubLayerId};
    forall x, y | x in kept && Edge(l, x, y)
      ensures y in kept
    {
      var p :| p in l[x].subPaths && Resolve(x, p) == y;
    }
    if Reachable(l, {}, RootId, DarkRedId) {
      ClosedSetHoldsReachable(l, {}, kept, RootId, DarkRedId);
    }
  }

  lemma WithoutColorUnreachable()
    ensures !Reachable(ColorTreeWithoutColor(), {}, RootId, DarkRedId)
  {
    var l := ColorTreeWithoutColor();
    var rest := {RootId, MyLayerId, MySubLayerId};
    forall x, y | x in rest && Edge(l, x, y)
      ensures y in rest
    {
      var p :| p in l[x].subPaths && Resolve(x, p) == y;
      if x == RootId {
        assert p == AnonRef(2);
      } else if x == MyLayerId {
        assert p == AnonRef(8);
      }
    }
    if Reachable(l, {}, RootId, DarkRedId) {
      ClosedSetHoldsReachable(l, {}, rest, RootId, DarkRedId);
    }
  }

  /** Removing the parent of the edit target DarkRed (Red, position 2 of
      Color) cuts every path to it, so the edit target falls back to the
      root. */
  lemma RemovingParentOfEditTargetCutsIt()
    ensures !Reachable(WithSubPaths(ColorTree(), ColorId, RemoveIndices(ColorTree()[ColorId].subPaths, {2})),
                       {}, RootId, DarkRedId)
  {
    var kept := RemoveIndices(ColorTree()[ColorId].subPaths, {2});
    RemovedRed();
    WithoutRedEquals(kept);
    WithoutRedUnreachable();
  }

  /** So does removing its grandparent (Color, position 1 of the root). */
  lemma RemovingGrandparentOfEditTargetCutsIt()
    ensures !Reachable(WithSubPaths(ColorTree(), RootId, RemoveIndices(ColorTree()[RootId].subPaths, {1})),
                       {}, RootId, DarkRedId)
  {
    var kept := RemoveIndices(ColorTree()[RootId].subPaths, {1});
    RemovedColor();
    WithoutColorEquals(kept);
    WithoutColorUnreachable();
  }

  /** A file layer listed both by the root and, two levels down, by
      MySubLayer. When the test inserts the shared layer (lines 327-328) its
      root also lists Color; the Color subtree never leads to the shared
      layer, so it is left out of this root's list. */
  function SharedTree(): Arena {
    map[
      RootId := Layer([AbsRef(SharedId.path), AnonRef(2)], Unlocked),
      MyLayerId := Layer([AnonRef(8)], Unlocked),
      MySubLayerId := Layer([AbsRef(SharedId.path)], Unlocked),
      SharedId := Leaf()]
  }

  lemma SharedRemovedEntries()
    ensures RemoveIndices(SharedTree()[RootId].subPaths, {0}) == [AnonRef(2)]
    ensures RemoveIndices(SharedTree()[MySubLayerId].subPaths, {0}) == []
  {
    RemoveIndicesSingle(SharedTree()[RootId].subPaths, 0);
    RemoveIndicesSingle(SharedTree()[MySubLayerId].subPaths, 0);
  }

  /** The shared tree without the root's entry for the shared layer. */
  function SharedTreeWithoutTop(): Arena {
    map[
      RootId := Layer([AnonRef(2)], Unlocked),
      MyLayerId := Layer([AnonRef(8)], Unlocked),
      MySubLayerId := Layer([AbsRef(SharedId.path)], Unlocked),
      SharedId := Leaf()]
  }

  lemma WithoutTopEquals(kept: seq<SubPath>)
    requires kept == [AnonRef(2)]
    ensures WithSubPaths(SharedTree(), RootId, kept) == SharedTreeWithoutTop()
  {
  }

  lemma WithoutTopReachesShared()
    ensures Reachable(SharedTreeWithoutTop(), {}, RootId, SharedId)
  {
    var l := SharedTreeWithoutTop();
    assert AnonRef(2) in l[RootId].subPaths && AnonRef(8) in l[MyLayerId].subPaths;
    assert AbsRef(SharedId.path) in l[MySubLayerId].subPaths;
    assert IsPath(l, {}, [RootId, MyLayerId, MySubLayerId, SharedId]);
  }

  /** The shared edit target survives the removal of its entry under the
      root, through MyLayer and MySubLayer ... */
  lemma SharedTargetSurvivesTopRemoval()
    ensures Reachable(WithSubPaths(SharedTree(), RootId, RemoveIndices(SharedTree()[RootId].subPaths, {0})),
                      {}, RootId, SharedId)
  {
    SharedRemovedEntries();
    WithoutTopEquals(RemoveIndices(SharedTree()[RootId].subPaths, {0}));
    WithoutTopReachesShared();
  }

  /** ... and the removal of its entry under MySubLayer, directly from the
      root ... */
  lemma SharedTargetSurvivesDeepRemoval()
    ensures Reachable(WithSubPaths(SharedTree(), MySubLayerId, RemoveIndices(SharedTree()[MySubLayerId].subPaths, {0})),
                      {}, RootId, SharedId)
  {
    SharedRemovedEntries();
    var noDeep := WithSubPaths(SharedTree(), MySubLayerId, []);
    assert AbsRef(SharedId.path) in noDeep[RootId].subPaths;
    assert IsPath(noDeep, {}, [RootId, SharedId]);
  }

  /** ... while removing both entries cuts it off. */
  lemma SharedTargetCutByBothRemovals()
    ensures !Reachable(WithSubPaths(WithSubPaths(SharedTree(), RootId, RemoveIndices(SharedTree()[RootId].subPaths, {0})),
                                    MySubLayerId, RemoveIndices(SharedTree()[MySubLayerId].subPaths, {0})),
                       {}, RootId, SharedId)
  {
    SharedRemovedEntries();
    var neither := WithSubPaths(WithSubPaths(SharedTree(), RootId, [AnonRef(2)]), MySubLayerId, []);
    var rest := {RootId, MyLayerId, MySubLayerId};
    forall x, y | x in rest && Edge(neither, x, y)
      ensures y in rest
    {
      var p :| p in neither[x].subPaths && Resolve(x, p) == y;
    }
    if Reachable(neither, {}, RootId, SharedId) {
      ClosedSetHoldsReachable(neither, {}, rest, RootId, SharedId);
    }
  }

  /** Three anonymous layers added under the same parent stack up with the
      latest first, each with a fresh identifier. */
  method AddThreeAnonymousLayers(st: Stage, parent: LayerId) returns (l1: LayerId, l2: LayerId, l3: LayerId)
    requires st.Valid() && parent in st.layers
    modifies st
    ensures st.Valid()
    ensures l1 != l2 && l2 != l3 && l1 != l3
    ensures l1 !in old(st.layers) && l2 !in old(st.layers) && l3 !in old(st.layers)
    ensures l1.AnonId? && l2.AnonId? && l3.AnonId? && parent in st.layers
    ensures st.layers[parent].subPaths ==
              [AnonRef(l3.token), AnonRef(l2.token), AnonRef(l1.token)] + old(st.layers[parent].subPaths)
  {
    ghost var keys0 := st.layers.Keys;
    ghost var s0 := st.layers[parent].subPaths;
    var r1 := st.AddAnonymous(parent);
    l1 := r1.value;
    ghost var s1 := st.layers[parent].subPaths;
    assert s1 == [AnonRef(l1.token)] + s0;
    assert l1 !in keys0 && keys0 <= st.layers.Keys && l1 in st.layers;
    var r2 := st.AddAnonymous(parent);
    l2 := r2.value;
    ghost var s2 := st.layers[parent].subPaths;
    assert s2 == [AnonRef(l2.token)] + s1;
    assert l2 !in keys0 && l1 != l2 && keys0 + {l1} <= st.layers.Keys && l2 in st.layers;
    var r3 := st.AddAnonymous(parent);
    l3 := r3.value;
    assert st.layers[parent].subPaths == [AnonRef(l3.token)] + s2;
    assert l3 !in keys0 && l3 != l1 && l3 != l2;
    PrependThree(AnonRef(l1.token), AnonRef(l2.token), AnonRef(l3.token), s0);
  }

  /** Prepending three entries one by one lists them newest first. */
  lemma PrependThree<T>(a: T, b: T, c: T, s: seq<T>)
    ensures [c] + ([b] + ([a] + s)) == [c, b, a] + s
  {
    assert [c] + ([b] + ([a] + s)) == [c] + [b] + [a] + s;
  }

  /** Undoing a removal brings back the sub-layer list and the edit target
      it started from, even when the removal made the edit target fall
      back to the root; redoing it brings back the removal's result. */
  method RemoveThenUndo(st: Stage, parent: LayerId, indices: seq<int>) returns (removed: bool)
    requires st.Valid()
    modifies st
    ensures st.Valid()
    ensures st.Current() == old(st.Current())
    ensures removed ==> |st.history.redo| == 1
  {
    var r := st.RemoveSubPaths(parent, indices);
    if r.Fail? {
      return false;
    }
    ghost var post := st.Current();
    UndoRedoCommand(old(st.history), old(st.Current()), post);
    var undone := st.Undo();
    return true;
  }
}
