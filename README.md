# Maya USD layer editor, transform-stack ordering and pulled-object hook — a verified model

This project models three parts of the Maya USD plug-in in Dafny and proves properties of them.

- **The layer-stack editor** behind the `mayaUsdLayerEditor` and `mayaUsdEditTarget` commands. Its behaviour is fixed by `test/lib/testMayaUsdLayerEditorCommands.py`; the command implementation itself is not part of this model.
  - A stage holds an arena of layers keyed by identifier (`LayerGraph.Arena`). Each layer has an ordered sub-layer list (strongest first) and a lock state (unlocked, locked, system-locked).
  - The stage also has a root layer, an edit target, a set of muted layers and an undo/redo history of whole-state snapshots.
  - It is modelled as the class `LayerEditor.Stage`. Every command is a method that either fails with an error and changes nothing, or applies its edit and records one undo step.
  - After every structural edit, the edit target is kept while any path of sub-layer entries from the root still reaches it; otherwise it falls back to the root.
  - A layer may be listed by several parents. Membership in the stack is therefore reachability (`LayerGraph.Reachable`), computed by a work-list traversal (`LayerGraph.CollectLayers`) that is proved equal to it.
  - Sub-layer entries are anonymous tokens, absolute paths or relative paths (`LayerPaths.SubPath`). Moving a relative entry to a parent in another directory rewrites it so that it still designates the same file.
- **The Maya transform-stack handler** of `lib/mayaUsd/ufe/UsdTransform3dMayaXformStack.cpp`, modelled in `MayaXformStack`:
  - the table from op names to stack positions;
  - the re-ordering of a prim's op list into stack order, keeping the last op per position;
  - the queries over the ordered ops and the op suffixes;
  - the decision of which handler serves a prim.
- **The children hook** of `lib/mayaUsd/ufe/MayaUsdHierarchy.cpp`, modelled in `MayaUsdHierarchy`. While USD children are listed, a child that was pulled into Maya is replaced by its Maya item.

The model has nine modules: `Wrappers` (Option, Result, Outcome), `LayerPaths`, `SubLayerLists`, `LayerGraph`, `EditHistory`, `LayerEditor`, `EditorScenarios` (the layer trees the tests build), `MayaXformStack` and `MayaUsdHierarchy`.

Where the tests leave a choice open, the model decides as follows:
- A batch removal treats its indices as a set. Every index must be in range, or nothing is removed.
- An anonymous layer anchors relative paths at the working directory, modelled as the empty directory. Climbing above the file-system root stays at the root.
- `DiscardEdits` reloads a file layer's list from its on-disk contents, given as a parameter. For an anonymous layer it empties the list.
- A move whose destination lies below the moved layer is rejected (`WouldCycle`). The tests do not exercise this; it follows the editor's design, which forbids cycles among sub-layers.
- Muting the root layer is rejected (`CannotMuteRoot`). The tests never mute the root; the rejection keeps the stage invariant that the root is always part of the composed stack.
- A lock command leaves a system-locked layer system-locked, whatever mode it asks for (`LayerGraph.Relock`). Only a refresh that finds the file writable, or an undo, lifts a system lock. The tests never lock over a system lock; this follows the editor's design.

The stack order of the transform-op positions (`MayaXformStack.Rank`) is taken to be the order in which the positions appear in the op-name table (UsdTransform3dMayaXformStack.cpp:77-108). The enumeration that fixes that order is declared in a header that is not part of this model, so the order is assumed rather than derived.

## Model

| member | source | states |
|---|---|---|
| LayerEditor.Stage.constructor | test/lib/testMayaUsdLayerEditorCommands.py:42-53 | A fresh stage over the loaded layers edits its root, has nothing muted and an empty history, and satisfies the stage invariant. |
| LayerEditor.Stage.AddAnonymous | test/lib/testMayaUsdLayerEditorCommands.py:127-136 | An unknown parent fails with no change. Otherwise a fresh identifier is returned that was not loaded and appears in no undo or redo snapshot. The new layer is empty and unlocked and is listed first under the parent; every other layer is unchanged. One undo step is recorded. |
| LayerEditor.Stage.InsertSubPath | test/lib/testMayaUsdLayerEditorCommands.py:199-216 | An index outside [0, n] or an unknown parent fails with no change. Otherwise the path (which need not designate a loaded layer) is inserted at that position; nothing else changes and one undo step is recorded. |
| LayerEditor.Stage.RemoveSubPaths | test/lib/testMayaUsdLayerEditorCommands.py:157-178 | Any index out of range, or an unknown parent, fails with no change. Otherwise exactly the listed positions are removed and the rest keep their order. The edit target falls back to the root only if it is no longer reachable. |
| LayerEditor.Stage.ReplaceSubPath | test/lib/testMayaUsdLayerEditorCommands.py:218-224 | An absent old path fails with no change. Otherwise its first occurrence is replaced in place, keeping its position. |
| LayerEditor.Stage.Clear | test/lib/testMayaUsdLayerEditorCommands.py:226-264 | The parent's list becomes empty; the removed layers stay loaded with their own sub-layers; undo can restore the list. |
| LayerEditor.Stage.DiscardEdits | test/lib/testMayaUsdLayerEditorCommands.py:226-264 | The layer's list becomes its on-disk contents (empty for an anonymous layer), with the same edit-target fallback and one undo step. |
| LayerEditor.Stage.CommitStructuralEdit | test/lib/testMayaUsdLayerEditorCommands.py:97-110 | Installs a structural edit, applies the edit-target fallback, and records the pre-image as one undo step. The stage invariant is kept. |
| LayerEditor.Stage.ResetEditTargetIfUnreachable | test/lib/testMayaUsdLayerEditorCommands.py:97-110 | The edit target is kept exactly when it is still reachable from the root, otherwise it becomes the root; afterwards it is always reachable. |
| LayerEditor.Stage.SetEditTarget | test/lib/testMayaUsdLayerEditorCommands.py:58-120 | A layer outside the stack fails with no change. Otherwise it becomes the edit target, the layers are untouched and one undo step is recorded. |
| LayerEditor.Stage.MoveSubPath | test/lib/testMayaUsdLayerEditorCommands.py:400-492 | An unknown layer or an absent child fails. Within one parent, an index in [0, n-1] gives exactly the test's moveElement result and index n fails. Across parents, an index in [0, destCount] takes the entry out of the source and inserts its rebased form into the destination. A destination that already lists the layer fails, and so does one below the moved layer. Every failure changes nothing. |
| LayerEditor.Stage.LockLayer | test/lib/testMayaUsdLayerEditorCommands.py:535-565 | The layer, and with propagation every layer reachable below it, takes the requested lock state, except that a system lock stays in place. No system lock is lifted, all other locks and every sub-layer list are unchanged, and one undo step is recorded. |
| LayerEditor.Stage.RefreshSystemLock | test/lib/testMayaUsdLayerEditorCommands.py:567-582 | A system lock on the layer (and with recursion on the layers below it) is lifted exactly where the write check reports the file writable. User locks and everything else are unchanged. |
| LayerEditor.Stage.MuteLayer | test/lib/testMayaUsdLayerEditorCommands.py:607-643 | Muting adds the layer to the muted set and unmuting removes it; the sub-layer lists are untouched. Muting the root fails with no change. |
| LayerEditor.MutedLayerLeavesStack | test/lib/testMayaUsdLayerEditorCommands.py:612-624 | A muted layer is never in the composed layer stack (nor among the used layers), while every layer of the composed stack is still reachable through the sub-layer structure. |
| LayerEditor.Stage.Undo | test/lib/testMayaUsdLayerEditorCommands.py:138-155 | Undo succeeds exactly when there is something to undo. It restores the last pre-image and pushes the current state onto the redo stack; with nothing to undo, nothing changes. |
| LayerEditor.Stage.Redo | test/lib/testMayaUsdLayerEditorCommands.py:138-155 | Redo succeeds exactly when there is something to redo. It restores the last undone state and pushes the current one onto the undo stack. |
| LayerEditor.Stage.LayerStack | test/lib/testMayaUsdLayerEditorCommands.py:612-624 | The composed stack is exactly the layers reached from the root without passing through a muted layer. |
| LayerEditor.Stage.IsAnyLayerModifiable | test/lib/testMayaUsdLayerEditorCommands.py:598-605 | True exactly when some layer of the composed stack is unlocked. |
| LayerEditor.SameListsKeepValid | test/lib/testMayaUsdLayerEditorCommands.py:551-565 | Changing only lock states keeps the edit target reachable and the stage invariant. |
| LayerEditor.ReorderKeepsEdges | test/lib/testMayaUsdLayerEditorCommands.py:416-441 | Moving an entry within one list keeps every sub-layer edge, in both directions. |
| LayerEditor.WithSubPathsRoundTrip | test/lib/testMayaUsdLayerEditorCommands.py:157-166 | Putting a layer's old list back undoes a list edit exactly, and a list edit neither adds nor lifts a system lock. |
| LayerEditor.WithLockKeepsSystemLocks | test/lib/testMayaUsdLayerEditorCommands.py:548-565 | Locking never lifts a system lock. Locking twice with one mode is the same as locking once. Every target that was not system-locked ends in the requested mode. |
| LayerEditor.RefreshOnlyLiftsSystemLocks | test/lib/testMayaUsdLayerEditorCommands.py:567-582 | A refresh never adds a lock: what could be edited or saved still can, and user locks stay. A writable target becomes savable. Refreshing twice is the same as refreshing once. |
| EditHistory.UndoStep | test/lib/testMayaUsdLayerEditorCommands.py:139-143 | Undo is possible exactly when the undo stack is non-empty. It restores the top pre-image and moves the current state onto the redo stack. |
| EditHistory.RedoStep | test/lib/testMayaUsdLayerEditorCommands.py:145-147 | Redo is possible exactly when the redo stack is non-empty. It is undo's mirror image. |
| EditHistory.UndoRedoCommand | test/lib/testMayaUsdLayerEditorCommands.py:403-414 | Undoing a command restores the state it started from. Redoing it restores the state it produced and the history right after it. |
| EditHistory.UndosThenRedos | test/lib/testMayaUsdLayerEditorCommands.py:148-155 | Any n undos that succeed, followed by n redos, give back exactly the starting state and history. |
| EditHistory.RedosLast | test/lib/testMayaUsdLayerEditorCommands.py:145-147 | n+1 redos are n redos followed by one more. |
| SubLayerLists.InsertAt | test/lib/testMayaUsdLayerEditorCommands.py:206-210 | The inserted entry sits at the index. Entries before it keep their positions and entries after it move down one. The contents grow by exactly that entry. |
| SubLayerLists.RemoveAt | test/lib/testMayaUsdLayerEditorCommands.py:157-166 | The entry at the index is gone. Earlier entries keep their positions and later ones move up one. The contents shrink by exactly that entry. |
| SubLayerLists.RemoveInsertRoundTrip | test/lib/testMayaUsdLayerEditorCommands.py:403-414 | Removing what was just inserted gives back the list. |
| SubLayerLists.InsertRemoveRoundTrip | test/lib/testMayaUsdLayerEditorCommands.py:403-414 | Putting a removed entry back where it was gives back the list. |
| SubLayerLists.IndexOf | test/lib/testMayaUsdLayerEditorCommands.py:418 | Finds the first occurrence when there is one, and reports absence exactly when the entry is missing. |
| SubLayerLists.ReplaceAtIsRemoveThenInsert | test/lib/testMayaUsdLayerEditorCommands.py:218-224 | Replacing an entry equals removing it and inserting the new path at the same position. The multiset of entries trades the old entry for the new one. Replacing back with the old entry restores the list. |
| SubLayerLists.MoveElement | test/lib/testMayaUsdLayerEditorCommands.py:416-420 | The test's reference move leaves the entry at the index and is a permutation of the list. |
| SubLayerLists.MoveElementToOwnPlace | test/lib/testMayaUsdLayerEditorCommands.py:434-437 | Moving an entry to its own position leaves the list unchanged. |
| SubLayerLists.RemoveIndices | test/lib/testMayaUsdLayerEditorCommands.py:397-398 | Removing a set of positions gives a sub-multiset of the list that is no longer than it. |
| SubLayerLists.RemoveIndicesKeeps | test/lib/testMayaUsdLayerEditorCommands.py:397-398 | Every entry at a position outside the set survives the batch removal. |
| SubLayerLists.RemoveIndicesSingle | test/lib/testMayaUsdLayerEditorCommands.py:159-166 | A batch of one index is the single removal at that index. |
| SubLayerLists.RemoveIndicesSingleSplice | test/lib/testMayaUsdLayerEditorCommands.py:159-166 | A batch of one index splices that entry out. |
| SubLayerLists.RemoveIndicesNone | test/lib/testMayaUsdLayerEditorCommands.py:397-398 | A batch that hits no position leaves the list unchanged. |
| SubLayerLists.RemoveIndicesPrefix | test/lib/testMayaUsdLayerEditorCommands.py:395-398 | Removing the first k positions leaves exactly the entries after them (the batch (0, 1) leaves the original entries 2..5). |
| SubLayerLists.RemoveIndicesAll | test/lib/testMayaUsdLayerEditorCommands.py:249-254 | Removing every position empties the list. |
| SubLayerLists.AllIndicesInRange | test/lib/testMayaUsdLayerEditorCommands.py:168-170 | True exactly when every index of the batch is a position of the list. |
| SubLayerLists.KeepOtherEntries | test/lib/testMayaUsdLayerEditorCommands.py:397-398 | The copy loop keeps exactly the entries at positions outside the batch, in order. |
| LayerGraph.RelockPermissions | test/lib/testMayaUsdLayerEditorCommands.py:548-565 | After a lock command, a layer may be edited exactly when the mode is unlocked and it was not system-locked. It may be saved exactly when neither the mode nor its old state is a system lock. Relocking with the same mode changes nothing. |
| LayerGraph.ReachableSelf | test/lib/testMayaUsdLayerEditorCommands.py:97-110 | A loaded layer outside the skipped set reaches itself. |
| LayerGraph.ReachableEndpoints | test/lib/testMayaUsdLayerEditorCommands.py:612-618 | Both ends of a path are loaded and outside the skipped set. |
| LayerGraph.ReachableStep | test/lib/testMayaUsdLayerEditorCommands.py:593-597 | One more sub-layer edge extends a path. |
| LayerGraph.ClosedSetHoldsReachable | test/lib/testMayaUsdLayerEditorCommands.py:302-316 | A set holding the start and closed under edges holds everything reachable from it; this is how cut-off layers are shown unreachable. |
| LayerGraph.ReachableMonotone | test/lib/testMayaUsdLayerEditorCommands.py:127-136 | Adding layers or entries never disconnects a layer. |
| LayerGraph.SameListsSameEdges | test/lib/testMayaUsdLayerEditorCommands.py:551-565 | Same keys and same entries per layer give the same edges in both directions. |
| LayerGraph.GrowingListGrowsEdges | test/lib/testMayaUsdLayerEditorCommands.py:127-136 | Lists that only grow keep every edge. |
| LayerGraph.Unseen | test/lib/testMayaUsdLayerEditorCommands.py:593-597 | The layers newly discovered from one layer are its loaded, unvisited, unskipped children. |
| LayerGraph.VisitKeepsFrontierClosed | test/lib/testMayaUsdLayerEditorCommands.py:593-597 | Visiting one work-list layer keeps every edge leaving the visited set inside the visited set or the work list. |
| LayerGraph.VisitKeepsTraversalState | test/lib/testMayaUsdLayerEditorCommands.py:593-597 | One traversal step keeps the traversal invariant. |
| LayerGraph.UnvisitedShrinks | test/lib/testMayaUsdLayerEditorCommands.py:593-597 | Each visit shrinks the set of unvisited layers, so the traversal ends. |
| LayerGraph.CollectLayers | test/lib/testMayaUsdLayerEditorCommands.py:593-597 | The traversal returns exactly the layers reachable from the start without entering the skipped set. |
| LayerPaths.DirOf | test/lib/testMayaUsdLayerEditorCommands.py:500-526 | A file layer's directory is its path without the file name; an anonymous layer's is the working directory. |
| LayerPaths.Climb | test/lib/testMayaUsdLayerEditorCommands.py:500-526 | Climbing gives a prefix of the directory, shorter by the number of steps when that many exist. |
| LayerPaths.CommonPrefixLength | test/lib/testMayaUsdLayerEditorCommands.py:527-533 | The two paths agree up to the length and differ right after it. |
| LayerPaths.RelativePath | test/lib/testMayaUsdLayerEditorCommands.py:527-533 | The rewrite always yields a relative entry. |
| LayerPaths.RelativePathResolves | test/lib/testMayaUsdLayerEditorCommands.py:527-533 | The relative path, resolved from its directory, reaches the target file. |
| LayerPaths.RebasedSubPath | test/lib/testMayaUsdLayerEditorCommands.py:527-533 | Only a relative entry moved to a parent in a different directory is rewritten, and it stays relative. |
| LayerPaths.RebasedSubPathSameLayer | test/lib/testMayaUsdLayerEditorCommands.py:527-533 | A rewritten entry designates the same layer under its new parent as before the move. |
| LayerPaths.RebaseIntoParentDirectory | test/lib/testMayaUsdLayerEditorCommands.py:527-533 | An entry `name` moved from a layer in `d/sub` to a layer in `d` becomes `sub/name`. |
| LayerPaths.CommonPrefixOfExtension | test/lib/testMayaUsdLayerEditorCommands.py:527-533 | A directory and a path below it share exactly the directory as their common prefix. |
| EditorScenarios.ColorTreeReachesDarkRed | test/lib/testMayaUsdLayerEditorCommands.py:283-304 | In the test's layer tree, DarkRed is in the stack, so it can be the edit target. |
| EditorScenarios.RemovingParentOfEditTargetCutsIt | test/lib/testMayaUsdLayerEditorCommands.py:306-308 | Removing Red (position 2 of Color) cuts off DarkRed, so the edit target falls back to the root. |
| EditorScenarios.RemovingGrandparentOfEditTargetCutsIt | test/lib/testMayaUsdLayerEditorCommands.py:312-314 | Removing Color (position 1 of the root) cuts off DarkRed as well. |
| EditorScenarios.SharedTargetSurvivesTopRemoval | test/lib/testMayaUsdLayerEditorCommands.py:332-335 | The shared layer stays reachable after its entry under the root is removed. |
| EditorScenarios.SharedTargetSurvivesDeepRemoval | test/lib/testMayaUsdLayerEditorCommands.py:339-342 | The shared layer stays reachable after its entry under MySubLayer is removed. |
| EditorScenarios.SharedTargetCutByBothRemovals | test/lib/testMayaUsdLayerEditorCommands.py:360-364 | Removing both entries cuts the shared layer off, so the edit target falls back to the root. |
| EditorScenarios.AddThreeAnonymousLayers | test/lib/testMayaUsdLayerEditorCommands.py:130-136 | Three adds return three distinct fresh layers, listed newest first as [L3, L2, L1] ahead of the earlier entries. |
| EditorScenarios.RemoveThenUndo | test/lib/testMayaUsdLayerEditorCommands.py:97-110 | A removal followed by undo restores the lists, the edit target and the muted set, and leaves the removal redoable. |
| MayaXformStack.AllNdxInStackOrder | lib/mayaUsd/ufe/UsdTransform3dMayaXformStack.cpp:123-137 | The positions are listed in strictly ascending stack order, and the list holds every position. |
| MayaXformStack.OpNameTableKeys | lib/mayaUsd/ufe/UsdTransform3dMayaXformStack.cpp:77-108 | The table knows exactly the 22 names it lists and no other. |
| MayaXformStack.OpNameTableFacts | lib/mayaUsd/ufe/UsdTransform3dMayaXformStack.cpp:77-108 | The ten rotate names map to the rotate position. The three `!invert!` names map to their inverse positions. Every position is named by the table. |
| MayaXformStack.NdxName | lib/mayaUsd/ufe/UsdTransform3dMayaXformStack.cpp:77-108 | Each position has a table name that maps back to it. |
| MayaXformStack.LastOpFor | lib/mayaUsd/ufe/UsdTransform3dMayaXformStack.cpp:126-129 | An op for a position exists exactly when some input op sits there. It is the last such op: no later op sits at that position. |
| MayaXformStack.GetOrderedOps | lib/mayaUsd/ufe/UsdTransform3dMayaXformStack.cpp:683-694 | Fails, naming the offending op, exactly when some op name is unknown. Otherwise each position maps to the last input op at that position. |
| MayaXformStack.Collect | lib/mayaUsd/ufe/UsdTransform3dMayaXformStack.cpp:132-137 | Traversal of the positions yields only last ops, one per present position, and misses none. |
| MayaXformStack.ValuesAt | lib/mayaUsd/ufe/UsdTransform3dMayaXformStack.cpp:132-137 | Reading the map at a list of positions yields only stored ops, at most one per position. |
| MayaXformStack.ValuesAtOrderedOps | lib/mayaUsd/ufe/UsdTransform3dMayaXformStack.cpp:123-137 | Reading the ordered-op map in position order is the canonical stack order of the input. |
| MayaXformStack.OpsInStackOrder | lib/mayaUsd/ufe/UsdTransform3dMayaXformStack.cpp:132-137 | The write-back loop emits the map's ops in stack order. |
| MayaXformStack.SetXformOpOrder | lib/mayaUsd/ufe/UsdTransform3dMayaXformStack.cpp:117-140 | Fails exactly when some op name is unknown. Otherwise it writes back the stack order of the ops and passes the resets flag through unchanged. |
| MayaXformStack.CollectAscending | lib/mayaUsd/ufe/UsdTransform3dMayaXformStack.cpp:132-137 | Collecting along ascending positions gives strictly ascending ops. |
| MayaXformStack.StackOrder | lib/mayaUsd/ufe/UsdTransform3dMayaXformStack.cpp:123-137 | The reference for the re-ordered op list holds at most one op per position (at most 13). Every op in it is known and is the last input op at its position. |
| MayaXformStack.StackOrderAscending | lib/mayaUsd/ufe/UsdTransform3dMayaXformStack.cpp:123-137 | The written-back order is strictly ascending in stack position, and every op in it is known. |
| MayaXformStack.StackOrderKeepsLastOp | lib/mayaUsd/ufe/UsdTransform3dMayaXformStack.cpp:126-129 | A position is present in the output exactly when some input op sits there, and the output holds the last such op. |
| MayaXformStack.StackOrderFromInput | lib/mayaUsd/ufe/UsdTransform3dMayaXformStack.cpp:132-137 | Every output op is an input op. |
| MayaXformStack.StackOrderNoLonger | lib/mayaUsd/ufe/UsdTransform3dMayaXformStack.cpp:132-133 | The output is no longer than the input. |
| MayaXformStack.DistinctSetSize | lib/mayaUsd/ufe/UsdTransform3dMayaXformStack.cpp:132-137 | A duplicate-free list has as many elements as its set. |
| MayaXformStack.SetSizeBound | lib/mayaUsd/ufe/UsdTransform3dMayaXformStack.cpp:132-137 | A list's set is no larger than the list. |
| MayaXformStack.SubsetSize | lib/mayaUsd/ufe/UsdTransform3dMayaXformStack.cpp:132-137 | A subset is no larger than its superset. |
| MayaXformStack.AscendingHeads | lib/mayaUsd/ufe/UsdTransform3dMayaXformStack.cpp:132-137 | Two ascending lists whose heads belong to each other have the same head. |
| MayaXformStack.AscendingTail | lib/mayaUsd/ufe/UsdTransform3dMayaXformStack.cpp:132-137 | The tail of an ascending list is the list without its head. |
| MayaXformStack.AscendingSameElements | lib/mayaUsd/ufe/UsdTransform3dMayaXformStack.cpp:132-137 | Two ascending lists with the same elements and length are equal. |
| MayaXformStack.AscendingSameLength | lib/mayaUsd/ufe/UsdTransform3dMayaXformStack.cpp:132-137 | Two ascending lists with the same elements have the same length. |
| MayaXformStack.AscendingOpIsLast | lib/mayaUsd/ufe/UsdTransform3dMayaXformStack.cpp:126-129 | In an ascending list, each op is the last one at its position. |
| MayaXformStack.CanonicalOrderUnchanged | lib/mayaUsd/ufe/UsdTransform3dMayaXformStack.cpp:123-137 | An op list already in strictly ascending stack order comes back unchanged. |
| MayaXformStack.StackOrderIdempotent | lib/mayaUsd/ufe/UsdTransform3dMayaXformStack.cpp:123-137 | Re-ordering twice is the same as re-ordering once. |
| MayaXformStack.HasOp | lib/mayaUsd/ufe/UsdTransform3dMayaXformStack.cpp:696-700 | Fails exactly when ordering fails. Otherwise it is true exactly when some op sits at the position. |
| MayaXformStack.GetOp | lib/mayaUsd/ufe/UsdTransform3dMayaXformStack.cpp:702-706 | Succeeds exactly when every name is known and some op sits at the position; it returns the last such op. With every name known, the failure is "no op at that position". |
| MayaXformStack.GetOpSuffix | lib/mayaUsd/ufe/UsdTransform3dMayaXformStack.cpp:708-720 | Defined exactly for the two pivots, their two translates, rotate axis and shear, and never the empty TRS suffix; any other position fails. |
| MayaXformStack.SuffixNameRoundTrip | lib/mayaUsd/ufe/UsdTransform3dMayaXformStack.cpp:507-557 | The op name built from a position's suffix maps back to that position. |
| MayaXformStack.PivotInverseTwin | lib/mayaUsd/ufe/UsdTransform3dMayaXformStack.cpp:653-656 | The inverted twin a pivot command adds lands at the matching inverse position, later in the stack than the pivot. |
| MayaXformStack.RotatePivotTranslateName | lib/mayaUsd/ufe/UsdTransform3dMayaXformStack.cpp:531-543 | The rotate-pivot-translate op name maps to its position. |
| MayaXformStack.RotatePivotName | lib/mayaUsd/ufe/UsdTransform3dMayaXformStack.cpp:507-517 | The rotate-pivot op name maps to its position. |
| MayaXformStack.ScalePivotTranslateName | lib/mayaUsd/ufe/UsdTransform3dMayaXformStack.cpp:545-557 | The scale-pivot-translate op name maps to its position. |
| MayaXformStack.ScalePivotName | lib/mayaUsd/ufe/UsdTransform3dMayaXformStack.cpp:519-529 | The scale-pivot op name maps to its position. |
| MayaXformStack.RotateAxisName | lib/mayaUsd/ufe/UsdTransform3dMayaXformStack.cpp:708-718 | The rotate-axis op name maps to its position. |
| MayaXformStack.ShearName | lib/mayaUsd/ufe/UsdTransform3dMayaXformStack.cpp:708-718 | The shear op name maps to its position. |
| MayaXformStack.RotatePivotInverseName | lib/mayaUsd/ufe/UsdTransform3dMayaXformStack.cpp:653-656 | The inverted rotate-pivot op maps to the rotate-pivot inverse position. |
| MayaXformStack.ScalePivotInverseName | lib/mayaUsd/ufe/UsdTransform3dMayaXformStack.cpp:653-656 | The inverted scale-pivot op maps to the scale-pivot inverse position. |
| MayaXformStack.InvertedRotatePivotOpName | lib/mayaUsd/ufe/UsdTransform3dMayaXformStack.cpp:96-97 | The inverted rotate-pivot op is named with the `!invert!` prefix, as the table lists it. |
| MayaXformStack.InvertedScalePivotOpName | lib/mayaUsd/ufe/UsdTransform3dMayaXformStack.cpp:103-104 | The inverted scale-pivot op is named with the `!invert!` prefix, as the table lists it. |
| MayaXformStack.TRSNamesRoundTrip | lib/mayaUsd/ufe/UsdTransform3dMayaXformStack.cpp:360-364 | With the empty TRS suffix, the translate, rotate and scale op names map to their positions. |
| MayaXformStack.HasValidSuffix | lib/mayaUsd/ufe/UsdTransform3dMayaXformStack.cpp:144-154 | As written, true exactly when every op's attribute name is in the table (so true for no ops). |
| MayaXformStack.HasKnownOpNames | lib/mayaUsd/ufe/UsdTransform3dMayaXformStack.cpp:144-154 | The corrected check: true exactly when every op name, inverse marker included, is in the table, which is what ordering needs. |
| MayaXformStack.KnownOpNameHasKnownAttr | lib/mayaUsd/ufe/UsdTransform3dMayaXformStack.cpp:77-108 | The attribute of a known op is itself a table name. |
| MayaXformStack.KnownOpNamesHaveKnownAttrs | lib/mayaUsd/ufe/UsdTransform3dMayaXformStack.cpp:144-154 | The corrected check implies the as-written one. |
| MayaXformStack.CreateTransform3dAsWritten | lib/mayaUsd/ufe/UsdTransform3dMayaXformStack.cpp:156-189 | As written: no interface exactly for a non-USD or non-transformable item. For a transformable USD prim, this handler is chosen exactly when the op list is empty, or every attribute name is known and the Maya substack matches; otherwise the next handler is used. |
| MayaXformStack.CreateTransform3d | lib/mayaUsd/ufe/UsdTransform3dMayaXformStack.cpp:156-189 | Corrected: no interface exactly for a non-USD or non-transformable item. For a transformable USD prim, this handler is chosen exactly when the op list is empty, or every op name can be ordered and the Maya substack matches. The next handler gets only non-empty op lists with an unknown op or no matching substack. |
| MayaXformStack.AsWrittenAcceptsUnorderablePrim | lib/mayaUsd/ufe/UsdTransform3dMayaXformStack.cpp:144-154 | A prim whose only op is an inverted plain translate is taken by the as-written decision, although ordering its ops fails; the corrected decision hands it on. |
| MayaXformStack.InvertedTranslateUnknown | lib/mayaUsd/ufe/UsdTransform3dMayaXformStack.cpp:77-108 | The inverted plain translate has no table entry. |
| MayaXformStack.CorrectionOnlyAffectsUnorderablePrims | lib/mayaUsd/ufe/UsdTransform3dMayaXformStack.cpp:156-189 | The two decisions differ only on prims whose ops cannot be ordered. |
| MayaUsdHierarchy.RelatedIffAgreeOnShorter | lib/mayaUsd/ufe/MayaUsdHierarchy.cpp:66-68 | One path is a prefix of the other, in either direction, exactly when the two agree on the shorter one's length. |
| MayaUsdHierarchy.IsAncestorOrDescendant | lib/mayaUsd/ufe/MayaUsdHierarchy.cpp:66-68 | A child is related to the proxy prim exactly when the two paths agree on the shorter one's length. That test is the same with the arguments swapped. |
| MayaUsdHierarchy.ChildrenHookOutcome | lib/mayaUsd/ufe/MayaUsdHierarchy.cpp:53-86 | The hook decides as follows. An empty proxy path is handled with nothing added. An item is added exactly for a related child whose pull information yields a live item, and then the child is handled. The child is left unhandled exactly when it is related and nothing was added. |
| MayaUsdHierarchy.HierarchyChildrenHook | lib/mayaUsd/ufe/MayaUsdHierarchy.cpp:53-86 | Returns the decision and appends at most that one item at the end of the children. Existing children are never removed or reordered, and filterInactive has no effect. |
| MayaUsdHierarchy.SceneItemList.Append | lib/mayaUsd/ufe/MayaUsdHierarchy.cpp:81 | Appending adds the item at the end. |
| MayaUsdHierarchy.Hierarchy.ChildrenHook | lib/mayaUsd/ufe/MayaUsdHierarchy.cpp:45-51 | The hierarchy forwards to the hook with its own proxy prim path, with the same outcome. |

## Left out

- `getPathRelativeToMayaSceneFile` (test/lib/testMayaUsdLayerEditorCommands.py:677-694): it depends on the Maya scene currently open, and only two sample outputs are shown.
- File I/O, such as creating temporary files and opening, finding or saving layers. Loading is modelled as the arena the stage starts with. Reloading for discard-edits is the `onDisk` parameter.
- Anonymous identifiers come from a fresh-token counter (`nextAnon`). The display name passed to add-anonymous does not affect the model and is not a parameter.
- Maya command dispatch, proxy-shape lookup (including the "bogusShape" failures at test lines 113-117) and the host undo queue. Undo is the explicit snapshot history.
- The filesystem write check behind refresh-system-lock is the `canWrite` parameter.
- LayerEditor.Stage.InsertSubPath: inserting a path the parent already lists is not rejected; the tests never do it.
- LayerEditor.Stage.RefreshSystemLock: the model lifts any writable system lock, including on anonymous layers; the tests only refresh a file layer.
- LayerEditor.Stage.MuteLayer: muting does not check that the layer is in the stack; a loaded layer is enough.
- MayaXformStack.OpNameTableKeys: it proves that the keys are exactly the listed names, not that the 22 listed names are distinct. A distinctness proof over 231 string pairs is beyond the solver budget used here.
- `MatchingSubstack` (UsdTransform3dMayaXformStack.cpp:186) is the parameter `matchesMayaStack`.
- The boolean result of USD's own `SetXformOpOrder` (line 139) is not modelled. The model returns the op order and flag it would write.
- The undoable commands, value getters and setters, rotation converters, matrix command and attribute-edit permission checks of the transform-stack file. These are USD attribute I/O, floating point, notification guards and foreign calls. The pivot command is represented only by the op names it adds (`PivotInverseTwin`).
- `readPullInformation`, `Ufe::Hierarchy::createItem` and `getProxyShapePrimPath` (MayaUsdHierarchy.cpp) are the inputs `pullInfo`, `createItem` and `proxyPrimPath`.
- Update in place of the layer objects: sub-layer lists are values in a map the stage reassigns, so aliasing of layer handles is not modelled.

## Findings

| source | as written | input that shows it | evidently intended | confidence | as-written member | corrected member |
|---|---|---|---|---|---|---|
| lib/mayaUsd/ufe/UsdTransform3dMayaXformStack.cpp:144-154 | The handler's suffix check looks up each op's attribute name (`GetName`), but ordering (lines 127 and 690) looks up the op name (`GetOpName`), which carries the `!invert!` marker for inverse ops. | A transformable prim whose op order is the inverse of `xformOp:translate`: the check passes, the handler is chosen, and ordering its ops fails on the unknown name `!invert!xformOp:translate`. | Check the op names that ordering will look up, and hand such a prim to the next handler. | not executed; `MatchingSubstack` may reject such a prim before it reaches the handler | MayaXformStack.AsWrittenAcceptsUnorderablePrim | MayaXformStack.CreateTransform3d |
