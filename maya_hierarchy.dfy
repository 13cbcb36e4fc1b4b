/** The children hook of the Maya-aware USD hierarchy: while the USD
    hierarchy lists a prim's children, a child that was pulled into Maya
    for editing is shown as its Maya object instead of as a USD prim. */
module MayaUsdHierarchy {
  import opened Wrappers

  /** A prim path, as its sequence of prim names from the stage root. */
  type PrimPath = seq<string>

  predicate HasPrefix(p: PrimPath, prefix: PrimPath) {
    |prefix| <= |p| && p[..|prefix|] == prefix
  }

  function Min(a: nat, b: nat): nat {
    if a <= b then a else b
  }

  /** Two paths are prefix-related, in one direction or the other, exactly
      when they agree on the length of the shorter one. */
  lemma RelatedIffAgreeOnShorter(a: PrimPath, b: PrimPath)
    ensures HasPrefix(a, b) || HasPrefix(b, a) <==> a[..Min(|a|, |b|)] == b[..Min(|a|, |b|)]
  {
    if |a| <= |b| {
      assert a[..Min(|a|, |b|)] == a;
    } else {
      assert b[..Min(|a|, |b|)] == b;
    }
  }

  /** One path lies on the other's ancestor chain (either may be the
      other's ancestor, or they are the same path): the two agree on the
      length of the shorter one, a test that does not depend on the order
      of the arguments. */
  function IsAncestorOrDescendant(childPath: PrimPath, primPath: PrimPath): (r: bool)
    ensures r <==> childPath[..Min(|childPath|, |primPath|)] == primPath[..Min(|childPath|, |primPath|)]
  {
    RelatedIffAgreeOnShorter(childPath, primPath);
    HasPrefix(childPath, primPath) || HasPrefix(primPath, childPath)
  }

  /** What the hook decides for one child: whether the child has been
      handled (so the usual USD processing skips it) and the item it
      contributes to the children list, if any. */
  datatype HookOutcome<T> = HookOutcome(handled: bool, appended: Option<T>)

  function AsSeq<T>(o: Option<T>): seq<T> {
    match o
    case Some(x) => [x]
    case None => []
  }

  /** The hook's decision. proxyPrimPath is the prim path of the proxy
      shape the hierarchy belongs to (None for the empty path), pullInfo
      the Maya DAG path recorded on the child when it was pulled, and
      createItem builds the scene item for a DAG path (None when the path
      is stale). */
  function ChildrenHookOutcome<T>(proxyPrimPath: Option<PrimPath>, childPath: PrimPath, pullInfo: Option<string>,
                                  createItem: string -> Option<T>): (o: HookOutcome<T>)
    ensures proxyPrimPath.None? ==> o == HookOutcome(true, None)
    ensures o.appended.Some? <==>
              proxyPrimPath.Some? && IsAncestorOrDescendant(childPath, proxyPrimPath.value) &&
              pullInfo.Some? && createItem(pullInfo.value).Some?
    ensures o.appended.Some? ==> o.handled && o.appended == createItem(pullInfo.value)
    ensures !o.handled <==> o.appended.None? && proxyPrimPath.Some? && IsAncestorOrDescendant(childPath, proxyPrimPath.value)
  {
    match proxyPrimPath
    case None => HookOutcome(true, None)
    case Some(primPath) =>
      if !IsAncestorOrDescendant(childPath, primPath) then HookOutcome(true, None)
      else match pullInfo
        case Some(dagPath) =>
          (match createItem(dagPath)
           case Some(item) => HookOutcome(true, Some(item))
           case None => HookOutcome(false, None))
        case None => HookOutcome(false, None)
  }

  /** The caller's children list, which the hook appends to. */
  class SceneItemList<T> {
    var items: seq<T>

    constructor(initial: seq<T>)
      ensures items == initial
    {
      items := initial;
    }

    method Append(x: T)
      modifies this
      ensures items == old(items) + [x]
    {
      items := items + [x];
    }
  }

  /** The hook proper: appends at most one item at the end of children and
      never removes or reorders the children already there.
      filterInactive is accepted and has no effect. */
  method HierarchyChildrenHook<T>(proxyPrimPath: Option<PrimPath>, childPath: PrimPath, children: SceneItemList<T>,
                         filterInactive: bool, pullInfo: Option<string>, createItem: string -> Option<T>)
    returns (handled: bool)
    modifies children
    ensures var o := ChildrenHookOutcome(proxyPrimPath, childPath, pullInfo, createItem);
      handled == o.handled && children.items == old(children.items) + AsSeq(o.appended)
  {
    if proxyPrimPath.None? {
      return true;
    }
    var primPath := proxyPrimPath.value;
    var isAncestorOrDescendant := HasPrefix(childPath, primPath) || HasPrefix(primPath, childPath);
    if !isAncestorOrDescendant {
      return true;
    }
    if pullInfo.Some? {
      var item := createItem(pullInfo.value);
      if item.Some? {
        children.Append(item.value);
        return true;
      }
    }
    return false;
  }

  /** The hierarchy of one USD scene item, which forwards the children hook
      with the prim path of that item's proxy shape. */
  class Hierarchy {
    const proxyPrimPath: Option<PrimPath>

    constructor(proxyPrimPath: Option<PrimPath>)
      ensures this.proxyPrimPath == proxyPrimPath
    {
      this.proxyPrimPath := proxyPrimPath;
    }

    method ChildrenHook<T>(childPath: PrimPath, children: SceneItemList<T>, filterInactive: bool,
                           pullInfo: Option<string>, createItem: string -> Option<T>)
      returns (handled: bool)
      modifies children
      ensures var o := ChildrenHookOutcome(proxyPrimPath, childPath, pullInfo, createItem);
        handled == o.handled && children.items == old(children.items) + AsSeq(o.appended)
    {
      handled := HierarchyChildrenHook(proxyPrimPath, childPath, children, filterInactive, pullInfo, createItem);
    }
  }
}
