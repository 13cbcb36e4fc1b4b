/** The layer arena: layers looked up by identifier, each holding its
    ordered sub-layer list and its lock state. A layer may be listed under
    several parents (a shared, "diamond" sub-layer), so which layers belong
    to a stack is a question of reachability over all sub-layer edges. */
module LayerGraph {
  import opened LayerPaths

  /** Lock state of a layer: a user lock clears the permission to edit; a
      system lock clears the permissions to edit and to save. */
  datatype LockState = Unlocked | Locked | SystemLocked

  function PermissionToEdit(s: LockState): bool { s.Unlocked? }

  function PermissionToSave(s: LockState): bool { !s.SystemLocked? }

  lemma LockPermissions(s: LockState)
    ensures PermissionToEdit(s) <==> s == Unlocked
    ensures !PermissionToSave(s) <==> s == SystemLocked
    ensures !PermissionToSave(s) ==> !PermissionToEdit(s)
  {
  }

  /** The lock state a lock command leaves on a layer: a system lock
      stays until a refresh finds the layer writable again; any other state
      takes the requested mode. */
  function Relock(current: LockState, mode: LockState): LockState {
    if current.SystemLocked? then SystemLocked else mode
  }

  /** What a lock command means for the two permissions: a layer may be
      edited afterwards only when it is unlocked and was not system-locked,
      and it may be saved only when neither state is a system lock; locking
      twice with one mode is locking once. */
  lemma RelockPermissions(current: LockState, mode: LockState)
    ensures PermissionToEdit(Relock(current, mode)) <==> mode == Unlocked && current != SystemLocked
    ensures PermissionToSave(Relock(current, mode)) <==> mode != SystemLocked && current != SystemLocked
    ensures Relock(Relock(current, mode), mode) == Relock(current, mode)
  {
  }

  datatype Layer = Layer(subPaths: seq<SubPath>, lock: LockState)

  type Arena = map<LayerId, Layer>

  /** The identifiers designated by the sub-layer entries of `a`. */
  function ChildIds(l: Arena, a: LayerId): set<LayerId>
    requires a in l
  {
    set p | p in l[a].subPaths :: Resolve(a, p)
  }

  /** `b` is a loaded sub-layer of the loaded layer `a`. */
  ghost predicate Edge(l: Arena, a: LayerId, b: LayerId) {
    a in l && b in l && b in ChildIds(l, a)
  }

  /** `p` walks sub-layer edges and never enters a layer of `skip`. */
  ghost predicate IsPath(l: Arena, skip: set<LayerId>, p: seq<LayerId>) {
    && |p| >= 1
    && (forall i :: 0 <= i < |p| ==> p[i] in l && p[i] !in skip)
    && (forall i :: 0 <= i < |p| - 1 ==> Edge(l, p[i], p[i + 1]))
  }

  /** `b` is reached from `a` through sub-layer edges, by any path
      avoiding `skip`. */
  ghost predicate Reachable(l: Arena, skip: set<LayerId>, a: LayerId, b: LayerId) {
    exists p :: IsPath(l, skip, p) && p[0] == a && p[|p| - 1] == b
  }

  lemma ReachableSelf(l: Arena, skip: set<LayerId>, a: LayerId)
    requires a in l && a !in skip
    ensures Reachable(l, skip, a, a)
  {
    assert IsPath(l, skip, [a]);
  }

  lemma ReachableEndpoints(l: Arena, skip: set<LayerId>, a: LayerId, b: LayerId)
    requires Reachable(l, skip, a, b)
    ensures a in l && a !in skip && b in l && b !in skip
  {
    var p :| IsPath(l, skip, p) && p[0] == a && p[|p| - 1] == b;
    assert p[|p| - 1] in l;
  }

  /** One more edge extends a path. */
  lemma ReachableStep(l: Arena, skip: set<LayerId>, a: LayerId, b: LayerId, c: LayerId)
    requires Reachable(l, skip, a, b) && Edge(l, b, c) && c !in skip
    ensures Reachable(l, skip, a, c)
  {
    var p :| IsPath(l, skip, p) && p[0] == a && p[|p| - 1] == b;
    var q := p + [c];
    assert q[..|p|] == p;
    assert forall i :: 0 <= i < |p| - 1 ==> Edge(l, q[i], q[i + 1]);
    assert IsPath(l, skip, q);
  }

  /** A set that holds `a` and is closed under the edges leaving it (to
      layers outside `skip`) holds every layer reachable from `a`. */
  lemma {:induction false} ClosedSetHoldsReachable(l: Arena, skip: set<LayerId>, s: set<LayerId>, a: LayerId, b: LayerId)
    requires a in s
    requires forall x, y :: x in s && Edge(l, x, y) && y !in skip ==> y in s
    requires Reachable(l, skip, a, b)
    ensures b in s
  {
    var p :| IsPath(l, skip, p) && p[0] == a && p[|p| - 1] == b;
    var i := 0;
    while i < |p| - 1
      invariant 0 <= i < |p|
      invariant p[i] in s
    {
      assert Edge(l, p[i], p[i + 1]) && p[i + 1] !in skip;
      i := i + 1;
    }
  }

  /** `l2` has every layer and every sub-layer edge of `l1`. */
  ghost predicate EdgesIncluded(l1: Arena, l2: Arena) {
    && l1.Keys <= l2.Keys
    && forall a, b :: Edge(l1, a, b) ==> Edge(l2, a, b)
  }

  /** Adding layers or sub-layer entries never disconnects anything. */
  lemma ReachableMonotone(l1: Arena, l2: Arena, skip: set<LayerId>, a: LayerId, b: LayerId)
    requires EdgesIncluded(l1, l2)
    requires Reachable(l1, skip, a, b)
    ensures Reachable(l2, skip, a, b)
  {
    var p :| IsPath(l1, skip, p) && p[0] == a && p[|p| - 1] == b;
    assert forall i :: 0 <= i < |p| - 1 ==> Edge(l2, p[i], p[i + 1]);
    assert IsPath(l2, skip, p);
  }

  /** Two arenas with the same keys and, per layer, the same sub-layer
      entries have the same edges in both directions. */
  lemma SameListsSameEdges(l1: Arena, l2: Arena)
    requires l1.Keys == l2.Keys
    requires forall a, p :: a in l1 ==> (p in l1[a].subPaths <==> p in l2[a].subPaths)
    ensures EdgesIncluded(l1, l2) && EdgesIncluded(l2, l1)
  {
    GrowingListGrowsEdges(l1, l2);
    GrowingListGrowsEdges(l2, l1);
  }

  /** Entries added under one layer, others untouched: the edges grow. */
  lemma GrowingListGrowsEdges(l1: Arena, l2: Arena)
    requires l1.Keys <= l2.Keys
    requires forall a, p :: a in l1 && p in l1[a].subPaths ==> p in l2[a].subPaths
    ensures EdgesIncluded(l1, l2)
  {
    forall a, b | Edge(l1, a, b) ensures Edge(l2, a, b) {
      var p :| p in l1[a].subPaths && Resolve(a, p) == b;
      assert p in l2[a].subPaths;
    }
  }

  /** Every edge leaving `visited` (to a layer outside `skip`) ends in
      `visited` or in `work`: the work-list traversal's frontier. */
  ghost predicate FrontierClosed(l: Arena, skip: set<LayerId>, visited: set<LayerId>, work: set<LayerId>) {
    forall x, y :: x in visited && Edge(l, x, y) && y !in skip ==> y in visited || y in work
  }

  /** The children of `x` not yet seen, as the traversal adds them. */
  function Unseen(l: Arena, skip: set<LayerId>, visited: set<LayerId>, x: LayerId): (r: set<LayerId>)
    requires x in l
    ensures r <= l.Keys && r !! visited && r !! skip && x !in r
    ensures forall c :: c in r ==> Edge(l, x, c)
  {
    set c | c in ChildIds(l, x) && c in l && c !in skip && c !in visited && c != x
  }

  /** The state of the work-list traversal from `from`: `visited` and
      `work` are disjoint sets of reachable layers, `from` is in one of
      them, and the frontier is closed. */
  ghost predicate TraversalState(l: Arena, skip: set<LayerId>, from: LayerId, visited: set<LayerId>, work: set<LayerId>) {
    && visited <= l.Keys && work <= l.Keys && visited !! work
    && (forall x :: x in visited || x in work ==> Reachable(l, skip, from, x))
    && (from in l && from !in skip ==> from in visited || from in work)
    && FrontierClosed(l, skip, visited, work)
  }

  /** Visiting one layer of the work list keeps the frontier closed. */
  lemma VisitKeepsFrontierClosed(l: Arena, skip: set<LayerId>, visited: set<LayerId>, work: set<LayerId>, x: LayerId)
    requires x in work && x in l
    requires FrontierClosed(l, skip, visited, work)
    ensures FrontierClosed(l, skip, visited + {x}, (work - {x}) + Unseen(l, skip, visited, x))
  {
    forall u, y | u in visited + {x} && Edge(l, u, y) && y !in skip
      ensures y in visited + {x} || y in (work - {x}) + Unseen(l, skip, visited, x)
    {
      if u != x {
        assert u in visited;
      }
    }
  }

  /** Visiting one layer of the work list keeps the traversal state. */
  lemma VisitKeepsTraversalState(l: Arena, skip: set<LayerId>, from: LayerId, visited: set<LayerId>, work: set<LayerId>, x: LayerId)
    requires x in work
    requires TraversalState(l, skip, from, visited, work)
    ensures TraversalState(l, skip, from, visited + {x}, (work - {x}) + Unseen(l, skip, visited, x))
  {
    var next := Unseen(l, skip, visited, x);
    forall c | c in next ensures Reachable(l, skip, from, c) {
      ReachableStep(l, skip, from, x, c);
    }
    VisitKeepsFrontierClosed(l, skip, visited, work, x);
  }

  lemma UnvisitedShrinks(keys: set<LayerId>, visited: set<LayerId>, x: LayerId)
    requires x in keys && x !in visited
    ensures |keys - (visited + {x})| < |keys - visited|
  {
    var rest := keys - (visited + {x});
    assert keys - visited == rest + {x};
    assert x !in rest;
  }

  /** The layers reachable from `from` without entering `skip`, collected
      by a work-list traversal over the sub-layer lists. */
  method CollectLayers(l: Arena, skip: set<LayerId>, from: LayerId) returns (r: set<LayerId>)
    ensures forall b :: b in r <==> Reachable(l, skip, from, b)
  {
    var visited: set<LayerId> := {};
    var work: set<LayerId> := {};
    if from in l && from !in skip {
      work := {from};
      ReachableSelf(l, skip, from);
    }
    while work != {}
      invariant TraversalState(l, skip, from, visited, work)
      decreases |l.Keys - visited|
    {
      var x :| x in work;
      var next := Unseen(l, skip, visited, x);
      VisitKeepsTraversalState(l, skip, from, visited, work, x);
      UnvisitedShrinks(l.Keys, visited, x);
      visited := visited + {x};
      work := (work - {x}) + next;
    }
    r := visited;
    forall b | Reachable(l, skip, from, b) ensures b in r {
      ReachableEndpoints(l, skip, from, b);
      ClosedSetHoldsReachable(l, skip, r, from, b);
    }
  }
}
