/** The transactional layer-stack editor driven by the layer-editor and
    edit-target commands: structural edits of sub-layer lists, the edit
    target and its fallback to the root, locks, mutes, and undo/redo of
    every command as one unit. */
module LayerEditor {
  import opened Wrappers
  import opened LayerPaths
  import opened SubLayerLists
  import opened LayerGraph
  import opened EditHistory

  /** Why a command was rejected; a rejected command changes nothing. */
  datatype EditError =
    | LayerNotFound     // the layer (or edit-target candidate) is not loaded or not in the stack
    | PathNotFound      // the sub-layer entry is not in the parent's list
    | IndexOutOfRange   // a list position outside the accepted range
    | AlreadyListed     // the destination of a move already lists the layer
    | WouldCycle        // the destination of a move lies below the moved layer
    | CannotMuteRoot    // the root layer cannot be muted

  /** Everything a command can change: the pre-image kept for undo. */
  datatype Memento = Memento(layers: Arena, editTarget: LayerId, muted: set<LayerId>)

  /** Every anonymous token in use is below `bound`. */
  ghost predicate AnonBelow(l: Arena, bound: nat) {
    forall n: nat :: AnonId(n) in l ==> n < bound
  }

  /** The stage invariants: the root is loaded and never muted, and the
      edit target is reachable from the root. */
  ghost predicate MementoValid(m: Memento, root: LayerId, bound: nat) {
    && root in m.layers
    && root !in m.muted
    && Reachable(m.layers, {}, root, m.editTarget)
    && AnonBelow(m.layers, bound)
  }

  /** `l` with the sub-layer list of `id` replaced by `s`. */
  function WithSubPaths(l: Arena, id: LayerId, s: seq<SubPath>): (r: Arena)
    requires id in l
    ensures r.Keys == l.Keys
    ensures r[id].subPaths == s && r[id].lock == l[id].lock
    ensures forall k :: k in l && k != id ==> r[k] == l[k]
  {
    l[id := l[id].(subPaths := s)]
  }

  /** `l` with every layer of `targets` relocked with `mode`. */
  function WithLock(l: Arena, targets: set<LayerId>, mode: LockState): (r: Arena)
    ensures r.Keys == l.Keys
    ensures forall k :: k in l ==> r[k].subPaths == l[k].subPaths
    ensures forall k :: k in l ==> r[k].lock == if k in targets then Relock(l[k].lock, mode) else l[k].lock
  {
    map k | k in l :: if k in targets then l[k].(lock := Relock(l[k].lock, mode)) else l[k]
  }

  /** `l` with the system lock of every layer of `targets` that
      `canWrite` reports writable lifted. */
  function WithSystemLockRefreshed(l: Arena, targets: set<LayerId>, canWrite: LayerId -> bool): (r: Arena)
    ensures r.Keys == l.Keys
    ensures forall k :: k in l ==> r[k].subPaths == l[k].subPaths
    ensures forall k :: k in l ==>
              r[k].lock == if k in targets && l[k].lock == SystemLocked && canWrite(k) then Unlocked else l[k].lock
  {
    map k | k in l :: if k in targets && l[k].lock == SystemLocked && canWrite(k) then l[k].(lock := Unlocked) else l[k]
  }

  /** Every layer system-locked in `before` is still loaded and
      system-locked in `after`. */
  ghost predicate SystemLocksKept(before: Arena, after: Arena) {
    forall k :: k in before && before[k].lock == SystemLocked ==> k in after && after[k].lock == SystemLocked
  }

  /** Restoring the old list undoes a list edit, and a list edit leaves
      every lock as it was. */
  lemma WithSubPathsRoundTrip(l: Arena, id: LayerId, s: seq<SubPath>)
    requires id in l
    ensures WithSubPaths(WithSubPaths(l, id, s), id, l[id].subPaths) == l
    ensures SystemLocksKept(l, WithSubPaths(l, id, s)) && SystemLocksKept(WithSubPaths(l, id, s), l)
  {
    var back := WithSubPaths(WithSubPaths(l, id, s), id, l[id].subPaths);
    assert forall k :: k in l ==> back[k] == l[k];
  }

  /** A lock command never lifts a system lock, relocking with the same
      mode changes nothing more, and every target ends up with the
      permissions the mode grants unless a system lock overrides them. */
  lemma WithLockKeepsSystemLocks(l: Arena, targets: set<LayerId>, mode: LockState)
    ensures SystemLocksKept(l, WithLock(l, targets, mode))
    ensures WithLock(WithLock(l, targets, mode), targets, mode) == WithLock(l, targets, mode)
    ensures forall k :: k in l && k in targets && l[k].lock != SystemLocked ==>
              WithLock(l, targets, mode)[k].lock == mode
  {
    var once := WithLock(l, targets, mode);
    var twice := WithLock(once, targets, mode);
    forall k | k in l ensures twice[k] == once[k] {
      RelockPermissions(l[k].lock, mode);
    }
  }

  /** A refresh never adds a lock: whatever could be edited or saved still
      can, user locks stay, a refresh of a writable target leaves it
      savable, and refreshing twice is refreshing once. */
  lemma RefreshOnlyLiftsSystemLocks(l: Arena, targets: set<LayerId>, canWrite: LayerId -> bool)
    ensures var r := WithSystemLockRefreshed(l, targets, canWrite);
      && (forall k :: k in l && PermissionToEdit(l[k].lock) ==> PermissionToEdit(r[k].lock))
      && (forall k :: k in l && PermissionToSave(l[k].lock) ==> PermissionToSave(r[k].lock))
      && (forall k :: k in l && l[k].lock == Locked ==> r[k].lock == Locked)
      && (forall k :: k in l && k in targets && canWrite(k) ==> PermissionToSave(r[k].lock))
      && WithSystemLockRefreshed(r, targets, canWrite) == r
  {
    var r := WithSystemLockRefreshed(l, targets, canWrite);
    var twice := WithSystemLockRefreshed(r, targets, canWrite);
    assert forall k :: k in r ==> twice[k] == r[k];
  }

  /** Changing lock states only, with the same layers and the same
      sub-layer lists, keeps a memento valid. */
  lemma SameListsKeepValid(m: Memento, l: Arena, root: LayerId, bound: nat)
    requires MementoValid(m, root, bound)
    requires l.Keys == m.layers.Keys
    requires forall k :: k in l ==> l[k].subPaths == m.layers[k].subPaths
    ensures MementoValid(Memento(l, m.editTarget, m.muted), root, bound)
  {
    SameListsSameEdges(m.layers, l);
    ReachableMonotone(m.layers, l, {}, root, m.editTarget);
  }

  /** Moving an entry within one sub-layer list keeps every edge. */
  lemma ReorderKeepsEdges(l: Arena, parent: LayerId, child: SubPath, index: int)
    requires parent in l && child in l[parent].subPaths
    requires 0 <= index < |l[parent].subPaths|
    ensures var edited := WithSubPaths(l, parent, MoveElement(l[parent].subPaths, child, index));
      EdgesIncluded(l, edited) && EdgesIncluded(edited, l)
  {
    var src := l[parent].subPaths;
    var edited := WithSubPaths(l, parent, MoveElement(src, child, index));
    forall a, p | a in l ensures p in l[a].subPaths <==> p in edited[a].subPaths {
      if a == parent {
        assert p in multiset(src) <==> p in multiset(edited[a].subPaths);
      }
    }
    SameListsSameEdges(l, edited);
  }

  /** A muted layer is never part of the composed layer stack, and every
      layer of the composed stack is in the stage's structure. */
  lemma MutedLayerLeavesStack(l: Arena, muted: set<LayerId>, root: LayerId, x: LayerId, y: LayerId)
    requires x in muted
    ensures !Reachable(l, muted, root, x)
    ensures Reachable(l, muted, root, y) ==> Reachable(l, {}, root, y)
  {
    if Reachable(l, muted, root, x) {
      ReachableEndpoints(l, muted, root, x);
    }
    if Reachable(l, muted, root, y) {
      var p :| IsPath(l, muted, p) && p[0] == root && p[|p| - 1] == y;
      assert IsPath(l, {}, p);
    }
  }

  class Stage {
    /** The layers loaded in the layer store, by identifier. */
    var layers: Arena
    const root: LayerId
    var editTarget: LayerId
    var muted: set<LayerId>
    var history: History<Memento>
    /** The fresh-identifier oracle: the next anonymous token to hand out. */
    var nextAnon: nat

    function Current(): Memento
      reads this
    {
      Memento(layers, editTarget, muted)
    }

    ghost predicate Valid()
      reads this
    {
      && MementoValid(Current(), root, nextAnon)
      && (forall i :: 0 <= i < |history.undo| ==> MementoValid(history.undo[i], root, nextAnon))
      && (forall i :: 0 <= i < |history.redo| ==> MementoValid(history.redo[i], root, nextAnon))
    }

    /** A stage over the layers already loaded, editing its root layer. */
    constructor (store: Arena, rootLayer: LayerId, firstFreeAnon: nat)
      requires rootLayer in store && AnonBelow(store, firstFreeAnon)
      ensures Valid()
      ensures layers == store && root == rootLayer && editTarget == rootLayer
      ensures muted == {} && history == History([], []) && nextAnon == firstFreeAnon
    {
      layers := store;
      root := rootLayer;
      editTarget := rootLayer;
      muted := {};
      history := History([], []);
      nextAnon := firstFreeAnon;
      new;
      ReachableSelf(store, {}, rootLayer);
    }

    /** After a structural edit: keep the edit target while any path from
        the root still reaches it, otherwise fall back to the root. */
    method ResetEditTargetIfUnreachable()
      requires root in layers
      modifies this`editTarget
      ensures editTarget == if Reachable(layers, {}, root, old(editTarget)) then old(editTarget) else root
      ensures Reachable(layers, {}, root, editTarget)
    {
      var stack := CollectLayers(layers, {}, root);
      if editTarget !in stack {
        editTarget := root;
        ReachableSelf(layers, {}, root);
      }
    }

    /** Creates a fresh anonymous layer and lists it first (strongest)
        under `parent`. */
    method AddAnonymous(parent: LayerId) returns (r: Result<LayerId, EditError>)
      requires Valid()
      modifies this
      ensures Valid()
      ensures parent !in old(layers) ==> r == Err(LayerNotFound) && unchanged(this)
      ensures parent in old(layers) ==>
        && r == Ok(AnonId(old(nextAnon)))
        && r.value !in old(layers)
        && (forall i :: 0 <= i < |old(history.undo)| ==> r.value !in old(history.undo[i].layers))
        && (forall i :: 0 <= i < |old(history.redo)| ==> r.value !in old(history.redo[i].layers))
        && layers.Keys == old(layers.Keys) + {r.value}
        && layers[r.value] == Layer([], Unlocked)
        && layers[parent] == old(layers[parent]).(subPaths := [AnonRef(old(nextAnon))] + old(layers[parent].subPaths))
        && (forall k :: k in old(layers) && k != parent ==> layers[k] == old(layers[k]))
        && editTarget == old(editTarget) && muted == old(muted)
        && nextAnon > old(nextAnon)
        && history == Record(old(history), old(Current()))
    {
      if parent !in layers {
        return Err(LayerNotFound);
      }
      var pre := Current();
      var id := AnonId(nextAnon);
      var grown := layers[id := Layer([], Unlocked)];
      layers := WithSubPaths(grown, parent, [AnonRef(nextAnon)] + grown[parent].subPaths);
      GrowingListGrowsEdges(pre.layers, layers);
      ReachableMonotone(pre.layers, layers, {}, root, editTarget);
      nextAnon := nextAnon + 1;
      history := Record(history, pre);
      r := Ok(id);
    }

    /** Lists `path` at position `index` of `parent`'s sub-layers; the path
        need not designate a loaded layer. */
    method InsertSubPath(parent: LayerId, index: int, path: SubPath) returns (r: Outcome<EditError>)
      requires Valid()
      modifies this
      ensures Valid()
      ensures parent !in old(layers) ==> r == Fail(LayerNotFound) && unchanged(this)
      ensures parent in old(layers) && !(0 <= index <= |old(layers[parent].subPaths)|) ==>
                r == Fail(IndexOutOfRange) && unchanged(this)
      ensures parent in old(layers) && 0 <= index <= |old(layers[parent].subPaths)| ==>
        && r == Pass
        && layers == WithSubPaths(old(layers), parent, InsertAt(old(layers[parent].subPaths), index, path))
        && editTarget == old(editTarget) && muted == old(muted) && nextAnon == old(nextAnon)
        && history == Record(old(history), old(Current()))
    {
      if parent !in layers {
        return Fail(LayerNotFound);
      }
      var s := layers[parent].subPaths;
      if !(0 <= index <= |s|) {
        return Fail(IndexOutOfRange);
      }
      var pre := Current();
      layers := WithSubPaths(layers, parent, InsertAt(s, index, path));
      assert forall p :: p in s ==> p in layers[parent].subPaths by {
        forall p | p in s ensures p in layers[parent].subPaths {
          assert p in multiset(s);
        }
      }
      GrowingListGrowsEdges(pre.layers, layers);
      ReachableMonotone(pre.layers, layers, {}, root, editTarget);
      history := Record(history, pre);
      r := Pass;
    }
  
    /** Installs `newLayers` (same loaded layers, some sub-layer lists
        edited), applies the edit-target fallback and records the
        pre-image for undo. */
    method CommitStructuralEdit(newLayers: Arena)
      requires Valid() && newLayers.Keys == layers.Keys
      requires forall k :: k in layers ==> newLayers[k].lock == layers[k].lock
      modifies this
      ensures Valid()
      ensures layers == newLayers && muted == old(muted) && nextAnon == old(nextAnon)
      ensures editTarget == if Reachable(newLayers, {}, root, old(editTarget)) then old(editTarget) else root
      ensures history == Record(old(history), old(Current()))
    {
      var pre := Current();
      layers := newLayers;
      ResetEditTargetIfUnreachable();
      history := Record(history, pre);
    }

    /** Removes, in one undoable step, the entries of `parent` at the
        positions listed in `indices`, every position counted in the list
        as it was before the command. */
    method RemoveSubPaths(parent: LayerId, indices: seq<int>) returns (r: Outcome<EditError>)
      requires Valid()
      modifies this
      ensures Valid()
      ensures parent !in old(layers) ==> r == Fail(LayerNotFound) && unchanged(this)
      ensures parent in old(layers) && (exists j :: j in indices && !(0 <= j < |old(layers[parent].subPaths)|)) ==>
                r == Fail(IndexOutOfRange) && unchanged(this)
      ensures parent in old(layers) && (forall j :: j in indices ==> 0 <= j < |old(layers[parent].subPaths)|) ==>
        && r == Pass
        && layers == WithSubPaths(old(layers), parent,
                                  RemoveIndices(old(layers[parent].subPaths), set j | j in indices))
        && editTarget == (if Reachable(layers, {}, root, old(editTarget)) then old(editTarget) else root)
        && muted == old(muted) && nextAnon == old(nextAnon)
        && history == Record(old(history), old(Current()))
    {
      if parent !in layers {
        return Fail(LayerNotFound);
      }
      var s := layers[parent].subPaths;
      var inRange := AllIndicesInRange(indices, |s|);
      if !inRange {
        return Fail(IndexOutOfRange);
      }
      var kept := KeepOtherEntries(s, indices);
      CommitStructuralEdit(WithSubPaths(layers, parent, kept));
      r := Pass;
    }

    /** Rewrites the first entry `oldPath` of `parent` to `newPath`, in
        place. */
    method ReplaceSubPath(parent: LayerId, oldPath: SubPath, newPath: SubPath) returns (r: Outcome<EditError>)
      requires Valid()
      modifies this
      ensures Valid()
      ensures parent !in old(layers) ==> r == Fail(LayerNotFound) && unchanged(this)
      ensures parent in old(layers) && oldPath !in old(layers[parent].subPaths) ==>
                r == Fail(PathNotFound) && unchanged(this)
      ensures parent in old(layers) && oldPath in old(layers[parent].subPaths) ==>
        && r == Pass
        && layers == WithSubPaths(old(layers), parent,
                                  ReplaceAt(old(layers[parent].subPaths),
                                            IndexOf(old(layers[parent].subPaths), oldPath).value, newPath))
        && editTarget == (if Reachable(layers, {}, root, old(editTarget)) then old(editTarget) else root)
        && muted == old(muted) && nextAnon == old(nextAnon)
        && history == Record(old(history), old(Current()))
    {
      if parent !in layers {
        return Fail(LayerNotFound);
      }
      var s := layers[parent].subPaths;
      match IndexOf(s, oldPath)
      case None =>
        return Fail(PathNotFound);
      case Some(k) =>
        CommitStructuralEdit(WithSubPaths(layers, parent, ReplaceAt(s, k, newPath)));
        r := Pass;
    }

    /** Empties the sub-layer list of `parent` in one undoable step. */
    method Clear(parent: LayerId) returns (r: Outcome<EditError>)
      requires Valid()
      modifies this
      ensures Valid()
      ensures parent !in old(layers) ==> r == Fail(LayerNotFound) && unchanged(this)
      ensures parent in old(layers) ==>
        && r == Pass
        && layers == WithSubPaths(old(layers), parent, [])
        && editTarget == (if Reachable(layers, {}, root, old(editTarget)) then old(editTarget) else root)
        && muted == old(muted) && nextAnon == old(nextAnon)
        && history == Record(old(history), old(Current()))
    {
      if parent !in layers {
        return Fail(LayerNotFound);
      }
      CommitStructuralEdit(WithSubPaths(layers, parent, []));
      r := Pass;
    }

    /** Reloads `id` from its saved state, whose sub-layer list is
        `onDisk`; an anonymous layer has no saved state and reloads empty. */
    method DiscardEdits(id: LayerId, onDisk: seq<SubPath>) returns (r: Outcome<EditError>)
      requires Valid()
      modifies this
      ensures Valid()
      ensures id !in old(layers) ==> r == Fail(LayerNotFound) && unchanged(this)
      ensures id in old(layers) ==>
        && r == Pass
        && layers == WithSubPaths(old(layers), id, if id.AnonId? then [] else onDisk)
        && editTarget == (if Reachable(layers, {}, root, old(editTarget)) then old(editTarget) else root)
        && muted == old(muted) && nextAnon == old(nextAnon)
        && history == Record(old(history), old(Current()))
    {
      if id !in layers {
        return Fail(LayerNotFound);
      }
      CommitStructuralEdit(WithSubPaths(layers, id, if id.AnonId? then [] else onDisk));
      r := Pass;
    }

    /** Makes `id` the edit target; only a layer of the stack qualifies. */
    method SetEditTarget(id: LayerId) returns (r: Outcome<EditError>)
      requires Valid()
      modifies this
      ensures Valid()
      ensures !Reachable(old(layers), {}, root, id) ==> r == Fail(LayerNotFound) && unchanged(this)
      ensures Reachable(old(layers), {}, root, id) ==>
        && r == Pass && editTarget == id
        && layers == old(layers) && muted == old(muted) && nextAnon == old(nextAnon)
        && history == Record(old(history), old(Current()))
    {
      var stack := CollectLayers(layers, {}, root);
      if id !in stack {
        return Fail(LayerNotFound);
      }
      history := Record(history, Current());
      editTarget := id;
      r := Pass;
    }

    /** Moves the entry `child` of `parent` to position `index` of
        `newParent`. Within one list the position counts the list without
        the moved entry; across lists it counts the destination list, a
        relative entry is rewritten for the new parent's directory, and
        the move is refused when the destination already lists the layer
        or lies below it. */
    method MoveSubPath(parent: LayerId, child: SubPath, newParent: LayerId, index: int) returns (r: Outcome<EditError>)
      requires Valid()
      modifies this
      ensures Valid()
      ensures parent !in old(layers) || newParent !in old(layers) ==> r == Fail(LayerNotFound) && unchanged(this)
      ensures parent in old(layers) && newParent in old(layers) && child !in old(layers[parent].subPaths) ==>
                r == Fail(PathNotFound) && unchanged(this)
      ensures parent == newParent && parent in old(layers) && child in old(layers[parent].subPaths) ==>
        if 0 <= index < |old(layers[parent].subPaths)| then
          && r == Pass
          && layers == WithSubPaths(old(layers), parent, MoveElement(old(layers[parent].subPaths), child, index))
          && editTarget == old(editTarget) && muted == old(muted) && nextAnon == old(nextAnon)
          && history == Record(old(history), old(Current()))
        else
          r == Fail(IndexOutOfRange) && unchanged(this)
      ensures parent != newParent && parent in old(layers) && newParent in old(layers)
              && child in old(layers[parent].subPaths) ==>
        var src := old(layers[parent].subPaths);
        var dest := old(layers[newParent].subPaths);
        var moved := Resolve(parent, child);
        if !(0 <= index <= |dest|) then
          r == Fail(IndexOutOfRange) && unchanged(this)
        else if moved in ChildIds(old(layers), newParent) then
          r == Fail(AlreadyListed) && unchanged(this)
        else if Reachable(old(layers), {}, moved, newParent) then
          r == Fail(WouldCycle) && unchanged(this)
        else
          && r == Pass
          && layers == WithSubPaths(WithSubPaths(old(layers), parent, RemoveAt(src, IndexOf(src, child).value)),
                                    newParent, InsertAt(dest, index, RebasedSubPath(parent, newParent, child)))
          && editTarget == (if Reachable(layers, {}, root, old(editTarget)) then old(editTarget) else root)
          && muted == old(muted) && nextAnon == old(nextAnon)
          && history == Record(old(history), old(Current()))
    {
      if parent !in layers || newParent !in layers {
        return Fail(LayerNotFound);
      }
      var src := layers[parent].subPaths;
      if child !in src {
        return Fail(PathNotFound);
      }
      if parent == newParent {
        if !(0 <= index < |src|) {
          return Fail(IndexOutOfRange);
        }
        var edited := WithSubPaths(layers, parent, MoveElement(src, child, index));
        ReorderKeepsEdges(layers, parent, child, index);
        ReachableMonotone(layers, edited, {}, root, editTarget);
        CommitStructuralEdit(edited);
        return Pass;
      }
      var dest := layers[newParent].subPaths;
      if !(0 <= index <= |dest|) {
        return Fail(IndexOutOfRange);
      }
      var moved := Resolve(parent, child);
      if moved in ChildIds(layers, newParent) {
        return Fail(AlreadyListed);
      }
      var below := CollectLayers(layers, {}, moved);
      if newParent in below {
        return Fail(WouldCycle);
      }
      var k := IndexOf(src, child).value;
      var removed := WithSubPaths(layers, parent, RemoveAt(src, k));
      CommitStructuralEdit(WithSubPaths(removed, newParent, InsertAt(dest, index, RebasedSubPath(parent, newParent, child))));
      r := Pass;
    }

    /** Sets the lock state of `id`, and with `propagate` of every layer
        below it, to `mode`; a system-locked layer keeps its system lock,
        which only a refresh or an undo lifts. */
    method LockLayer(id: LayerId, mode: LockState, propagate: bool) returns (r: Outcome<EditError>)
      requires Valid()
      modifies this
      ensures Valid()
      ensures id !in old(layers) ==> r == Fail(LayerNotFound) && unchanged(this)
      ensures id in old(layers) ==>
        && r == Pass
        && layers.Keys == old(layers.Keys)
        && (forall k :: k in old(layers) ==> layers[k].subPaths == old(layers[k].subPaths))
        && (forall k :: k in old(layers) ==>
              layers[k].lock == if k == id || (propagate && Reachable(old(layers), {}, id, k))
                                then Relock(old(layers[k].lock), mode) else old(layers[k].lock))
        && SystemLocksKept(old(layers), layers)
        && editTarget == old(editTarget) && muted == old(muted) && nextAnon == old(nextAnon)
        && history == Record(old(history), old(Current()))
    {
      if id !in layers {
        return Fail(LayerNotFound);
      }
      var targets := {id};
      if propagate {
        targets := CollectLayers(layers, {}, id);
        ReachableSelf(layers, {}, id);
      }
      var pre := Current();
      var relocked := WithLock(layers, targets, mode);
      WithLockKeepsSystemLocks(layers, targets, mode);
      SameListsKeepValid(pre, relocked, root, nextAnon);
      layers := relocked;
      history := Record(history, pre);
      r := Pass;
    }

    /** Lifts the system lock of `id`, and with `recursive` of every layer
        below it, where the write check `canWrite` now succeeds; user locks
        and layers that are still not writable keep their state. */
    method RefreshSystemLock(id: LayerId, recursive: bool, canWrite: LayerId -> bool) returns (r: Outcome<EditError>)
      requires Valid()
      modifies this
      ensures Valid()
      ensures id !in old(layers) ==> r == Fail(LayerNotFound) && unchanged(this)
      ensures id in old(layers) ==>
        && r == Pass
        && layers.Keys == old(layers.Keys)
        && (forall k :: k in old(layers) ==> layers[k].subPaths == old(layers[k].subPaths))
        && (forall k :: k in old(layers) ==>
              layers[k].lock == if (k == id || (recursive && Reachable(old(layers), {}, id, k)))
                                   && old(layers[k].lock) == SystemLocked && canWrite(k)
                                then Unlocked else old(layers[k].lock))
        && editTarget == old(editTarget) && muted == old(muted) && nextAnon == old(nextAnon)
        && history == Record(old(history), old(Current()))
    {
      if id !in layers {
        return Fail(LayerNotFound);
      }
      var targets := {id};
      if recursive {
        targets := CollectLayers(layers, {}, id);
        ReachableSelf(layers, {}, id);
      }
      var pre := Current();
      var relocked := WithSystemLockRefreshed(layers, targets, canWrite);
      SameListsKeepValid(pre, relocked, root, nextAnon);
      layers := relocked;
      history := Record(history, pre);
      r := Pass;
    }

    /** Mutes or unmutes `id` on this stage; the sub-layer lists are left
        alone. */
    method MuteLayer(id: LayerId, mute: bool) returns (r: Outcome<EditError>)
      requires Valid()
      modifies this
      ensures Valid()
      ensures id !in old(layers) ==> r == Fail(LayerNotFound) && unchanged(this)
      ensures id in old(layers) && mute && id == root ==> r == Fail(CannotMuteRoot) && unchanged(this)
      ensures id in old(layers) && !(mute && id == root) ==>
        && r == Pass
        && muted == (if mute then old(muted) + {id} else old(muted) - {id})
        && layers == old(layers) && editTarget == old(editTarget) && nextAnon == old(nextAnon)
        && history == Record(old(history), old(Current()))
    {
      if id !in layers {
        return Fail(LayerNotFound);
      }
      if mute && id == root {
        return Fail(CannotMuteRoot);
      }
      history := Record(history, Current());
      muted := if mute then muted + {id} else muted - {id};
      r := Pass;
    }

    /** Reverts the last command (or redone command), as one unit. */
    method Undo() returns (ok: bool)
      requires Valid()
      modifies this
      ensures Valid()
      ensures ok <==> old(history.undo) != []
      ensures !ok ==> unchanged(this)
      ensures ok ==> var s := UndoStep(old(Current()), old(history)).value;
                     Current() == s.0 && history == s.1 && nextAnon == old(nextAnon)
    {
      match UndoStep(Current(), history)
      case None =>
        return false;
      case Some(s) =>
        layers, editTarget, muted := s.0.layers, s.0.editTarget, s.0.muted;
        history := s.1;
        return true;
    }

    /** Re-applies the last undone command, as one unit. */
    method Redo() returns (ok: bool)
      requires Valid()
      modifies this
      ensures Valid()
      ensures ok <==> old(history.redo) != []
      ensures !ok ==> unchanged(this)
      ensures ok ==> var s := RedoStep(old(Current()), old(history)).value;
                     Current() == s.0 && history == s.1 && nextAnon == old(nextAnon)
    {
      match RedoStep(Current(), history)
      case None =>
        return false;
      case Some(s) =>
        layers, editTarget, muted := s.0.layers, s.0.editTarget, s.0.muted;
        history := s.1;
        return true;
    }

    /** The composed layer stack (and the used layers): every layer reached
        from the root without passing through a muted layer. */
    method LayerStack() returns (r: set<LayerId>)
      ensures forall x :: x in r <==> Reachable(layers, muted, root, x)
    {
      r := CollectLayers(layers, muted, root);
    }

    /** Whether some layer of the layer stack may still be edited. */
    method IsAnyLayerModifiable() returns (r: bool)
      ensures r <==> exists x :: Reachable(layers, muted, root, x) && x in layers && PermissionToEdit(layers[x].lock)
    {
      var rest := CollectLayers(layers, muted, root);
      while rest != {}
        invariant forall x :: x in rest ==> Reachable(layers, muted, root, x)
        invariant forall x :: Reachable(layers, muted, root, x) && x !in rest ==>
                    x in layers && !PermissionToEdit(layers[x].lock)
        decreases |rest|
      {
        var x :| x in rest;
        ReachableEndpoints(layers, muted, root, x);
        if PermissionToEdit(layers[x].lock) {
          return true;
        }
        rest := rest - {x};
      }
      return false;
    }
}
}
