/** The Maya transform-stack handler for USD prims: the table from
    transform-op names to Maya transform-stack positions, re-ordering a
    prim's op list into stack order, the queries over the ordered ops, and
    the chain-of-responsibility decision of which handler serves a prim. */
module MayaXformStack {
  import opened Wrappers

  /** Positions of the Maya transform stack. */
  datatype OpNdx =
    | NdxTranslate | NdxPivot | NdxRotatePivotTranslate | NdxRotatePivot | NdxRotate
    | NdxRotateAxis | NdxRotatePivotInverse | NdxScalePivotTranslate | NdxScalePivot
    | NdxShear | NdxScale | NdxScalePivotInverse | NdxPivotInverse

  /** Numeric value of a position: the order the stack applies them in,
      taken to follow the op-name table, since the enumeration itself is
      declared in a header outside this model. */
  function Rank(n: OpNdx): nat {
    match n
    case NdxTranslate => 0
    case NdxPivot => 1
    case NdxRotatePivotTranslate => 2
    case NdxRotatePivot => 3
    case NdxRotate => 4
    case NdxRotateAxis => 5
    case NdxRotatePivotInverse => 6
    case NdxScalePivotTranslate => 7
    case NdxScalePivot => 8
    case NdxShear => 9
    case NdxScale => 10
    case NdxScalePivotInverse => 11
    case NdxPivotInverse => 12
  }

  /** All positions, in stack order. */
  const AllNdx: seq<OpNdx> := [
    NdxTranslate, NdxPivot, NdxRotatePivotTranslate, NdxRotatePivot, NdxRotate,
    NdxRotateAxis, NdxRotatePivotInverse, NdxScalePivotTranslate, NdxScalePivot,
    NdxShear, NdxScale, NdxScalePivotInverse, NdxPivotInverse]

  lemma AllNdxInStackOrder()
    ensures forall i, j :: 0 <= i < j < |AllNdx| ==> Rank(AllNdx[i]) < Rank(AllNdx[j])
    ensures forall n :: n in AllNdx
  {
    forall n ensures n in AllNdx {
      match n
      case NdxTranslate => assert AllNdx[0] == n;
      case NdxPivot => assert AllNdx[1] == n;
      case NdxRotatePivotTranslate => assert AllNdx[2] == n;
      case NdxRotatePivot => assert AllNdx[3] == n;
      case NdxRotate => assert AllNdx[4] == n;
      case NdxRotateAxis => assert AllNdx[5] == n;
      case NdxRotatePivotInverse => assert AllNdx[6] == n;
      case NdxScalePivotTranslate => assert AllNdx[7] == n;
      case NdxScalePivot => assert AllNdx[8] == n;
      case NdxShear => assert AllNdx[9] == n;
      case NdxScale => assert AllNdx[10] == n;
      case NdxScalePivotInverse => assert AllNdx[11] == n;
      case NdxPivotInverse => assert AllNdx[12] == n;
    }
  }

  /** The op-name table: the op names this handler understands and the
      stack position of each. */
  const OpNameToNdx: map<string, OpNdx> := map[
    "xformOp:translate" := NdxTranslate,
    "xformOp:translate:pivot" := NdxPivot,
    "xformOp:translate:rotatePivotTranslate" := NdxRotatePivotTranslate,
    "xformOp:translate:rotatePivot" := NdxRotatePivot,
    "xformOp:rotateX" := NdxRotate,
    "xformOp:rotateY" := NdxRotate,
    "xformOp:rotateZ" := NdxRotate,
    "xformOp:rotateXYZ" := NdxRotate,
    "xformOp:rotateXZY" := NdxRotate,
    "xformOp:rotateYXZ" := NdxRotate,
    "xformOp:rotateYZX" := NdxRotate,
    "xformOp:rotateZXY" := NdxRotate,
    "xformOp:rotateZYX" := NdxRotate,
    "xformOp:orient" := NdxRotate,
    "xformOp:rotateXYZ:rotateAxis" := NdxRotateAxis,
    "!invert!xformOp:translate:rotatePivot" := NdxRotatePivotInverse,
    "xformOp:translate:scalePivotTranslate" := NdxScalePivotTranslate,
    "xformOp:translate:scalePivot" := NdxScalePivot,
    "xformOp:transform:shear" := NdxShear,
    "xformOp:scale" := NdxScale,
    "!invert!xformOp:translate:scalePivot" := NdxScalePivotInverse,
    "!invert!xformOp:translate:pivot" := NdxPivotInverse]

  /** The table's names, in the order it lists them. */
  const TableNames: seq<string> := [
    "xformOp:translate", "xformOp:translate:pivot", "xformOp:translate:rotatePivotTranslate",
    "xformOp:translate:rotatePivot", "xformOp:rotateX", "xformOp:rotateY", "xformOp:rotateZ",
    "xformOp:rotateXYZ", "xformOp:rotateXZY", "xformOp:rotateYXZ", "xformOp:rotateYZX",
    "xformOp:rotateZXY", "xformOp:rotateZYX", "xformOp:orient", "xformOp:rotateXYZ:rotateAxis",
    "!invert!xformOp:translate:rotatePivot", "xformOp:translate:scalePivotTranslate",
    "xformOp:translate:scalePivot", "xformOp:transform:shear", "xformOp:scale",
    "!invert!xformOp:translate:scalePivot", "!invert!xformOp:translate:pivot"]

  /** The table knows exactly the 22 listed names and no other. */
  lemma OpNameTableKeys()
    ensures |TableNames| == 22
    ensures forall name :: name in OpNameToNdx <==> name in TableNames
  {
  }

  /** The rotate family and the inverted pivots land where the stack
      expects them; a name outside the table is unknown. */
  lemma OpNameTableFacts()
    ensures forall name :: name in RotateOpNames ==> name in OpNameToNdx && OpNameToNdx[name] == NdxRotate
    ensures OpNameToNdx["!invert!xformOp:translate:rotatePivot"] == NdxRotatePivotInverse
    ensures OpNameToNdx["!invert!xformOp:translate:scalePivot"] == NdxScalePivotInverse
    ensures OpNameToNdx["!invert!xformOp:translate:pivot"] == NdxPivotInverse
    ensures forall n :: n in OpNameToNdx.Values
  {
    forall n ensures n in OpNameToNdx.Values {
      var name := NdxName(n);
      assert name in OpNameToNdx && OpNameToNdx[name] == n;
    }
  }

  /** One table name per position, a witness that every position is
      reachable from the table. */
  function NdxName(n: OpNdx): (name: string)
    ensures name in OpNameToNdx && OpNameToNdx[name] == n
  {
    match n
    case NdxTranslate => "xformOp:translate"
    case NdxPivot => "xformOp:translate:pivot"
    case NdxRotatePivotTranslate => "xformOp:translate:rotatePivotTranslate"
    case NdxRotatePivot => "xformOp:translate:rotatePivot"
    case NdxRotate => "xformOp:rotateXYZ"
    case NdxRotateAxis => "xformOp:rotateXYZ:rotateAxis"
    case NdxRotatePivotInverse => "!invert!xformOp:translate:rotatePivot"
    case NdxScalePivotTranslate => "xformOp:translate:scalePivotTranslate"
    case NdxScalePivot => "xformOp:translate:scalePivot"
    case NdxShear => "xformOp:transform:shear"
    case NdxScale => "xformOp:scale"
    case NdxScalePivotInverse => "!invert!xformOp:translate:scalePivot"
    case NdxPivotInverse => "!invert!xformOp:translate:pivot"
  }

  /** The ten rotation op names: the single-axis rotations, the six
      three-axis orders and the quaternion orient op. */
  const RotateOpNames: seq<string> := [
    "xformOp:rotateX", "xformOp:rotateY", "xformOp:rotateZ",
    "xformOp:rotateXYZ", "xformOp:rotateXZY", "xformOp:rotateYXZ",
    "xformOp:rotateYZX", "xformOp:rotateZXY", "xformOp:rotateZYX",
    "xformOp:orient"]

  /** A transform op of a prim's op order: the attribute it reads and
      whether the op applies that attribute's inverse. */
  datatype XformOp = XformOp(attrName: string, isInverse: bool)

  const InvertPrefix: string := "!invert!"

  /** The op's name in the op order: the attribute name, marked when the
      op is an inverse. */
  function OpName(op: XformOp): string {
    if op.isInverse then InvertPrefix + op.attrName else op.attrName
  }

  /** Stack position of an op, when its op name is in the table. */
  function OpNdxOf(op: XformOp): Option<OpNdx> {
    if OpName(op) in OpNameToNdx then Some(OpNameToNdx[OpName(op)]) else None
  }

  /** Every op's op name is in the table (what ordering needs). */
  predicate AllOpNamesKnown(ndxOf: XformOp -> Option<OpNdx>, ops: seq<XformOp>) {
    forall i :: 0 <= i < |ops| ==> ndxOf(ops[i]).Some?
  }

  /** Every op's attribute name is in the table (what the handler's
      suffix check tests). */
  predicate AllAttrNamesKnown(ops: seq<XformOp>) {
    forall i :: 0 <= i < |ops| ==> ops[i].attrName in OpNameToNdx
  }

  /** The last op of the list that sits at position n. */
  function LastOpFor(ndxOf: XformOp -> Option<OpNdx>, ops: seq<XformOp>, n: OpNdx): (r: Option<XformOp>)
    ensures r.Some? <==> exists i :: 0 <= i < |ops| && ndxOf(ops[i]) == Some(n)
    ensures r.Some? ==> exists i :: 0 <= i < |ops| && ops[i] == r.value && ndxOf(ops[i]) == Some(n) &&
                          forall j :: i < j < |ops| ==> ndxOf(ops[j]) != Some(n)
  {
    if ops == [] then None
    else if ndxOf(ops[|ops| - 1]) == Some(n) then Some(ops[|ops| - 1])
    else
      var r := LastOpFor(ndxOf, ops[..|ops| - 1], n);
      assert forall i :: 0 <= i < |ops| - 1 ==> ops[..|ops| - 1][i] == ops[i];
      r
  }

  function Lookup(m: map<OpNdx, XformOp>, n: OpNdx): Option<XformOp> {
    if n in m then Some(m[n]) else None
  }

  datatype XformError = UnknownOpName(name: string) | NoOpAt(ndx: OpNdx) | NoSuffix(ndx: OpNdx)

  /** The prim's ops keyed by stack position, filled in list order so that
      a later op at the same position replaces an earlier one. Fails on the
      first op whose name is not in the table. */
  method GetOrderedOps(ops: seq<XformOp>) returns (r: Result<map<OpNdx, XformOp>, XformError>)
    ensures r.Err? <==> !AllOpNamesKnown(OpNdxOf, ops)
    ensures r.Err? ==> exists i :: 0 <= i < |ops| && OpNdxOf(ops[i]).None? && r.error == UnknownOpName(OpName(ops[i]))
    ensures r.Ok? ==> forall n :: Lookup(r.value, n) == LastOpFor(OpNdxOf, ops, n)
  {
    var ordered: map<OpNdx, XformOp> := map[];
    var i := 0;
    while i < |ops|
      invariant 0 <= i <= |ops|
      invariant forall k :: 0 <= k < i ==> OpNdxOf(ops[k]).Some?
      invariant forall n :: Lookup(ordered, n) == LastOpFor(OpNdxOf, ops[..i], n)
    {
      var name := OpName(ops[i]);
      if name !in OpNameToNdx {
        return Err(UnknownOpName(name));
      }
      var ndx := OpNameToNdx[name];
      ordered := ordered[ndx := ops[i]];
      assert ops[..i + 1][..i] == ops[..i];
      i := i + 1;
    }
    assert ops[..i] == ops;
    return Ok(ordered);
  }

  /** The ops at the positions ns, in the order of ns, one per position
      present: the last op at that position. */
  function Collect(ndxOf: XformOp -> Option<OpNdx>, ns: seq<OpNdx>, ops: seq<XformOp>): (r: seq<XformOp>)
    ensures |r| <= |ns|
    ensures forall e :: e in r ==> ndxOf(e).Some? && ndxOf(e).value in ns && LastOpFor(ndxOf, ops, ndxOf(e).value) == Some(e)
    ensures forall n :: n in ns && LastOpFor(ndxOf, ops, n).Some? ==> LastOpFor(ndxOf, ops, n).value in r
  {
    if ns == [] then []
    else
      var last := ns[|ns| - 1];
      Collect(ndxOf, ns[..|ns| - 1], ops) + (match LastOpFor(ndxOf, ops, last) case Some(op) => [op] case None => [])
  }

  /** The op order written back by setXformOpOrder: the last op at each
      position, in stack order. */
  function StackOrder(ndxOf: XformOp -> Option<OpNdx>, ops: seq<XformOp>): (r: seq<XformOp>)
    ensures |r| <= |AllNdx|
    ensures forall e :: e in r ==> ndxOf(e).Some? && LastOpFor(ndxOf, ops, ndxOf(e).value) == Some(e)
  {
    Collect(ndxOf, AllNdx, ops)
  }

  /** The ops a position-keyed map holds at the positions ns, in the
      order of ns. */
  function ValuesAt(m: map<OpNdx, XformOp>, ns: seq<OpNdx>): (r: seq<XformOp>)
    ensures |r| <= |ns|
    ensures forall e :: e in r ==> e in m.Values
  {
    if ns == [] then []
    else
      var last := ns[|ns| - 1];
      ValuesAt(m, ns[..|ns| - 1]) + (if last in m then [m[last]] else [])
  }

  /** Reading the map built by GetOrderedOps at positions ns is collecting
      the last input op at each of those positions. */
  lemma {:induction false} ValuesAtOrderedOps(ndxOf: XformOp -> Option<OpNdx>, m: map<OpNdx, XformOp>, ns: seq<OpNdx>, ops: seq<XformOp>)
    requires forall n :: Lookup(m, n) == LastOpFor(ndxOf, ops, n)
    ensures ValuesAt(m, ns) == Collect(ndxOf, ns, ops)
  {
    if ns != [] {
      var last := ns[|ns| - 1];
      ValuesAtOrderedOps(ndxOf, m, ns[..|ns| - 1], ops);
      assert Lookup(m, last) == LastOpFor(ndxOf, ops, last);
    }
  }

  /** The values of the ordered map in ascending key order, as iterating
      the map yields them. */
  method OpsInStackOrder(m: map<OpNdx, XformOp>) returns (order: seq<XformOp>)
    ensures order == ValuesAt(m, AllNdx)
  {
    order := [];
    var j := 0;
    while j < |AllNdx|
      invariant 0 <= j <= |AllNdx|
      invariant order == ValuesAt(m, AllNdx[..j])
    {
      var n := AllNdx[j];
      assert AllNdx[..j + 1][..j] == AllNdx[..j];
      if n in m {
        order := order + [m[n]];
      }
      j := j + 1;
    }
    assert AllNdx[..j] == AllNdx;
  }

  /** Re-order a prim's ops into Maya transform-stack order. The
      resets-transform-stack flag is written back unchanged. */
  method SetXformOpOrder(ops: seq<XformOp>, resetsXformStack: bool) returns (r: Result<(seq<XformOp>, bool), XformError>)
    ensures r.Err? <==> !AllOpNamesKnown(OpNdxOf, ops)
    ensures r.Ok? ==> r.value == (StackOrder(OpNdxOf, ops), resetsXformStack)
  {
    var ordered := GetOrderedOps(ops);
    if ordered.Err? {
      return Err(ordered.error);
    }
    var newOrder := OpsInStackOrder(ordered.value);
    ValuesAtOrderedOps(OpNdxOf, ordered.value, AllNdx, ops);
    return Ok((newOrder, resetsXformStack));
  }

  /** Stack position of an op as a number, -1 for an unknown op. */
  function StackRank(ndxOf: XformOp -> Option<OpNdx>, op: XformOp): int {
    match ndxOf(op)
    case Some(n) => Rank(n)
    case None => -1
  }

  predicate StrictlyAscending(ndxOf: XformOp -> Option<OpNdx>, ops: seq<XformOp>) {
    forall i, j :: 0 <= i < j < |ops| ==> StackRank(ndxOf, ops[i]) < StackRank(ndxOf, ops[j])
  }

  lemma {:induction false} CollectAscending(ndxOf: XformOp -> Option<OpNdx>, ns: seq<OpNdx>, ops: seq<XformOp>)
    requires forall i, j :: 0 <= i < j < |ns| ==> Rank(ns[i]) < Rank(ns[j])
    ensures StrictlyAscending(ndxOf, Collect(ndxOf, ns, ops))
  {
    if ns != [] {
      var init := ns[..|ns| - 1];
      var last := ns[|ns| - 1];
      CollectAscending(ndxOf, init, ops);
      var front := Collect(ndxOf, init, ops);
      forall e | e in front
        ensures StackRank(ndxOf, e) < Rank(last)
      {
        var k :| 0 <= k < |init| && init[k] == ndxOf(e).value;
      }
    }
  }

  /** The written-back order lists the ops in strictly ascending stack
      position, so no two of them share a position. */
  lemma StackOrderAscending(ndxOf: XformOp -> Option<OpNdx>, ops: seq<XformOp>)
    ensures StrictlyAscending(ndxOf, StackOrder(ndxOf, ops))
    ensures forall e :: e in StackOrder(ndxOf, ops) ==> ndxOf(e).Some?
  {
    AllNdxInStackOrder();
    CollectAscending(ndxOf, AllNdx, ops);
  }

  /** Position n is present in the written-back order exactly when some
      input op sits at n, and it then holds the last such input op. */
  lemma StackOrderKeepsLastOp(ndxOf: XformOp -> Option<OpNdx>, ops: seq<XformOp>, n: OpNdx)
    ensures (exists e :: e in StackOrder(ndxOf, ops) && ndxOf(e) == Some(n)) <==>
            (exists i :: 0 <= i < |ops| && ndxOf(ops[i]) == Some(n))
    ensures forall e :: e in StackOrder(ndxOf, ops) && ndxOf(e) == Some(n) ==>
              exists i :: 0 <= i < |ops| && ops[i] == e && forall j :: i < j < |ops| ==> ndxOf(ops[j]) != Some(n)
  {
    AllNdxInStackOrder();
    if exists i :: 0 <= i < |ops| && ndxOf(ops[i]) == Some(n) {
      var e := LastOpFor(ndxOf, ops, n).value;
      assert e in StackOrder(ndxOf, ops);
    }
  }

  lemma {:induction false} DistinctSetSize(a: seq<XformOp>)
    requires forall i, j :: 0 <= i < j < |a| ==> a[i] != a[j]
    ensures |set x | x in a| == |a|
  {
    if a != [] {
      var init := a[..|a| - 1];
      DistinctSetSize(init);
      assert (set x | x in a) == (set x | x in init) + {a[|a| - 1]};
    }
  }

  lemma {:induction false} SetSizeBound(a: seq<XformOp>)
    ensures |set x | x in a| <= |a|
  {
    if a != [] {
      var init := a[..|a| - 1];
      SetSizeBound(init);
      assert (set x | x in a) == (set x | x in init) + {a[|a| - 1]};
    }
  }

  /** The written-back order only holds input ops ... */
  lemma StackOrderFromInput(ndxOf: XformOp -> Option<OpNdx>, ops: seq<XformOp>)
    ensures forall e :: e in StackOrder(ndxOf, ops) ==> e in ops
  {
    forall e | e in StackOrder(ndxOf, ops)
      ensures e in ops
    {
      var n := ndxOf(e).value;
      assert LastOpFor(ndxOf, ops, n) == Some(e);
    }
  }

  /** ... and is never longer than the input. */
  lemma StackOrderNoLonger(ndxOf: XformOp -> Option<OpNdx>, ops: seq<XformOp>)
    ensures |StackOrder(ndxOf, ops)| <= |ops|
  {
    var out := StackOrder(ndxOf, ops);
    StackOrderFromInput(ndxOf, ops);
    StackOrderAscending(ndxOf, ops);
    DistinctSetSize(out);
    SetSizeBound(ops);
    SubsetSize(set x | x in out, set x | x in ops);
  }

  lemma SubsetSize(small: set<XformOp>, large: set<XformOp>)
    requires small <= large
    ensures |small| <= |large|
  {
    assert large == small + (large - small);
  }

  lemma AscendingHeads(ndxOf: XformOp -> Option<OpNdx>, a: seq<XformOp>, b: seq<XformOp>)
    requires StrictlyAscending(ndxOf, a) && StrictlyAscending(ndxOf, b)
    requires a != [] && b != []
    requires a[0] in b && b[0] in a
    ensures a[0] == b[0]
  {
    var k :| 0 <= k < |b| && b[k] == a[0];
    var m :| 0 <= m < |a| && a[m] == b[0];
    assert StackRank(ndxOf, b[0]) <= StackRank(ndxOf, b[k]);
    assert StackRank(ndxOf, a[0]) <= StackRank(ndxOf, a[m]);
  }

  lemma AscendingTail(ndxOf: XformOp -> Option<OpNdx>, a: seq<XformOp>, x: XformOp)
    requires StrictlyAscending(ndxOf, a) && a != []
    ensures x in a[1..] <==> x in a && x != a[0]
  {
    if x in a[1..] {
      var m :| 1 <= m < |a| && a[m] == x;
      assert StackRank(ndxOf, a[0]) < StackRank(ndxOf, a[m]);
    }
    if x in a && x != a[0] {
      var m :| 0 <= m < |a| && a[m] == x;
      assert a[1..][m - 1] == x;
    }
  }

  lemma {:induction false} AscendingSameElements(ndxOf: XformOp -> Option<OpNdx>, a: seq<XformOp>, b: seq<XformOp>)
    requires StrictlyAscending(ndxOf, a) && StrictlyAscending(ndxOf, b)
    requires |a| == |b|
    requires forall x :: x in a <==> x in b
    ensures a == b
  {
    if a != [] {
      assert a[0] in b;
      assert b[0] in a;
      AscendingHeads(ndxOf, a, b);
      forall x
        ensures x in a[1..] <==> x in b[1..]
      {
        AscendingTail(ndxOf, a, x);
        AscendingTail(ndxOf, b, x);
      }
      AscendingSameElements(ndxOf, a[1..], b[1..]);
    }
  }

  /** In a list in strictly ascending stack order, each op is the last
      (indeed the only) op at its position. */
  lemma AscendingOpIsLast(ndxOf: XformOp -> Option<OpNdx>, ops: seq<XformOp>, i: int)
    requires StrictlyAscending(ndxOf, ops)
    requires 0 <= i < |ops| && ndxOf(ops[i]).Some?
    ensures LastOpFor(ndxOf, ops, ndxOf(ops[i]).value) == Some(ops[i])
  {
    var n := ndxOf(ops[i]).value;
    var e := LastOpFor(ndxOf, ops, n).value;
    var k :| 0 <= k < |ops| && ops[k] == e && ndxOf(ops[k]) == Some(n) &&
             forall j :: k < j < |ops| ==> ndxOf(ops[j]) != Some(n);
    assert StackRank(ndxOf, ops[k]) == StackRank(ndxOf, ops[i]);
  }

  /** Two strictly ascending lists with the same elements have the same
      length. */
  lemma AscendingSameLength(ndxOf: XformOp -> Option<OpNdx>, a: seq<XformOp>, b: seq<XformOp>)
    requires StrictlyAscending(ndxOf, a) && StrictlyAscending(ndxOf, b)
    requires forall x :: x in a <==> x in b
    ensures |a| == |b|
  {
    DistinctSetSize(a);
    DistinctSetSize(b);
    assert (set x | x in a) == (set x | x in b);
  }

  /** An op list already in strictly ascending stack order, all of whose
      names are known, is written back unchanged. */
  lemma CanonicalOrderUnchanged(ndxOf: XformOp -> Option<OpNdx>, ops: seq<XformOp>)
    requires AllOpNamesKnown(ndxOf, ops) && StrictlyAscending(ndxOf, ops)
    ensures StackOrder(ndxOf, ops) == ops
  {
    var out := StackOrder(ndxOf, ops);
    StackOrderAscending(ndxOf, ops);
    StackOrderFromInput(ndxOf, ops);
    AllNdxInStackOrder();
    forall x | x in ops
      ensures x in out
    {
      var i :| 0 <= i < |ops| && ops[i] == x;
      AscendingOpIsLast(ndxOf, ops, i);
    }
    AscendingSameLength(ndxOf, out, ops);
    AscendingSameElements(ndxOf, out, ops);
  }

  /** Re-ordering twice is re-ordering once. */
  lemma StackOrderIdempotent(ndxOf: XformOp -> Option<OpNdx>, ops: seq<XformOp>)
    ensures StackOrder(ndxOf, StackOrder(ndxOf, ops)) == StackOrder(ndxOf, ops)
  {
    StackOrderAscending(ndxOf, ops);
    CanonicalOrderUnchanged(ndxOf, StackOrder(ndxOf, ops));
  }

  /** Whether the prim has an op at position n. */
  method HasOp(ops: seq<XformOp>, n: OpNdx) returns (r: Result<bool, XformError>)
    ensures r.Err? <==> !AllOpNamesKnown(OpNdxOf, ops)
    ensures r.Ok? ==> (r.value <==> exists i :: 0 <= i < |ops| && OpNdxOf(ops[i]) == Some(n))
  {
    var ordered := GetOrderedOps(ops);
    if ordered.Err? {
      return Err(ordered.error);
    }
    assert Lookup(ordered.value, n) == LastOpFor(OpNdxOf, ops, n);
    return Ok(n in ordered.value);
  }

  /** The prim's op at position n: the last one when several share it.
      Fails on an unknown op name and when no op sits at n. */
  method GetOp(ops: seq<XformOp>, n: OpNdx) returns (r: Result<XformOp, XformError>)
    ensures r.Ok? <==> AllOpNamesKnown(OpNdxOf, ops) && exists i :: 0 <= i < |ops| && OpNdxOf(ops[i]) == Some(n)
    ensures r.Ok? ==> exists i :: 0 <= i < |ops| && ops[i] == r.value && OpNdxOf(ops[i]) == Some(n) &&
                        forall j :: i < j < |ops| ==> OpNdxOf(ops[j]) != Some(n)
    ensures r.Err? && AllOpNamesKnown(OpNdxOf, ops) ==> r.error == NoOpAt(n)
  {
    var ordered := GetOrderedOps(ops);
    if ordered.Err? {
      return Err(ordered.error);
    }
    assert Lookup(ordered.value, n) == LastOpFor(OpNdxOf, ops, n);
    if n !in ordered.value {
      return Err(NoOpAt(n));
    }
    return Ok(ordered.value[n]);
  }

  /** The attribute-name suffix the stack uses at position n; only the
      pivot, pivot-translate, rotate-axis and shear positions have one. */
  function GetOpSuffix(n: OpNdx): (r: Result<string, XformError>)
    ensures r.Ok? <==> n in {NdxRotatePivotTranslate, NdxRotatePivot, NdxRotateAxis,
                             NdxScalePivotTranslate, NdxScalePivot, NdxShear}
    ensures r.Err? ==> r.error == NoSuffix(n)
    ensures r.Ok? ==> r.value != TRSOpSuffix
  {
    match n
    case NdxRotatePivotTranslate => Ok("rotatePivotTranslate")
    case NdxRotatePivot => Ok("rotatePivot")
    case NdxRotateAxis => Ok("rotateAxis")
    case NdxScalePivotTranslate => Ok("scalePivotTranslate")
    case NdxScalePivot => Ok("scalePivot")
    case NdxShear => Ok("shear")
    case _ => Err(NoSuffix(n))
  }

  /** The suffix of the translate, rotate and scale ops: none. */
  const TRSOpSuffix: string := ""

  /** The op name USD gives an op of the given type and suffix. */
  function UsdOpName(opType: string, suffix: string): string {
    if suffix == "" then "xformOp:" + opType else "xformOp:" + opType + ":" + suffix
  }

  /** An op named from a position's suffix lands back at that position in
      the table: the pivots and pivot translates as translate ops, the
      rotate axis as a three-axis rotate op, the shear as a matrix op. */
  lemma SuffixNameRoundTrip(n: OpNdx)
    requires GetOpSuffix(n).Ok?
    ensures OpNdxOf(XformOp(UsdOpName(SuffixOpType(n), GetOpSuffix(n).value), false)) == Some(n)
  {
    match n
    case NdxRotatePivotTranslate => RotatePivotTranslateName();
    case NdxRotatePivot => RotatePivotName();
    case NdxScalePivotTranslate => ScalePivotTranslateName();
    case NdxScalePivot => ScalePivotName();
    case NdxRotateAxis => RotateAxisName();
    case NdxShear => ShearName();
  }

  /** The op type an op at a suffixed position has. */
  function SuffixOpType(n: OpNdx): string {
    match n
    case NdxRotateAxis => "rotateXYZ"
    case NdxShear => "transform"
    case _ => "translate"
  }

  /** The inverted twin of a pivot translate op lands at the matching
      inverse position, which comes later in the stack than the pivot. */
  lemma PivotInverseTwin(n: OpNdx)
    requires n == NdxRotatePivot || n == NdxScalePivot
    ensures var inv := if n == NdxRotatePivot then NdxRotatePivotInverse else NdxScalePivotInverse;
      OpNdxOf(XformOp(UsdOpName("translate", GetOpSuffix(n).value), true)) == Some(inv) && Rank(n) < Rank(inv)
  {
    if n == NdxRotatePivot {
      RotatePivotInverseName();
    } else {
      ScalePivotInverseName();
    }
  }

  lemma RotatePivotTranslateName()
    ensures OpNdxOf(XformOp(UsdOpName("translate", "rotatePivotTranslate"), false)) == Some(NdxRotatePivotTranslate)
  {
    assert UsdOpName("translate", "rotatePivotTranslate") == "xformOp:translate:rotatePivotTranslate";
  }

  lemma RotatePivotName()
    ensures OpNdxOf(XformOp(UsdOpName("translate", "rotatePivot"), false)) == Some(NdxRotatePivot)
  {
    assert UsdOpName("translate", "rotatePivot") == "xformOp:translate:rotatePivot";
  }

  lemma ScalePivotTranslateName()
    ensures OpNdxOf(XformOp(UsdOpName("translate", "scalePivotTranslate"), false)) == Some(NdxScalePivotTranslate)
  {
    assert UsdOpName("translate", "scalePivotTranslate") == "xformOp:translate:scalePivotTranslate";
  }

  lemma ScalePivotName()
    ensures OpNdxOf(XformOp(UsdOpName("translate", "scalePivot"), false)) == Some(NdxScalePivot)
  {
    assert UsdOpName("translate", "scalePivot") == "xformOp:translate:scalePivot";
  }

  lemma RotateAxisName()
    ensures OpNdxOf(XformOp(UsdOpName("rotateXYZ", "rotateAxis"), false)) == Some(NdxRotateAxis)
  {
    assert UsdOpName("rotateXYZ", "rotateAxis") == "xformOp:rotateXYZ:rotateAxis";
  }

  lemma ShearName()
    ensures OpNdxOf(XformOp(UsdOpName("transform", "shear"), false)) == Some(NdxShear)
  {
    assert UsdOpName("transform", "shear") == "xformOp:transform:shear";
  }

  lemma RotatePivotInverseName()
    ensures OpNdxOf(XformOp(UsdOpName("translate", "rotatePivot"), true)) == Some(NdxRotatePivotInverse)
  {
    assert UsdOpName("translate", "rotatePivot") == "xformOp:translate:rotatePivot";
    InvertedRotatePivotOpName();
  }

  lemma ScalePivotInverseName()
    ensures OpNdxOf(XformOp(UsdOpName("translate", "scalePivot"), true)) == Some(NdxScalePivotInverse)
  {
    assert UsdOpName("translate", "scalePivot") == "xformOp:translate:scalePivot";
    InvertedScalePivotOpName();
  }

  lemma InvertedRotatePivotOpName()
    ensures OpName(XformOp("xformOp:translate:rotatePivot", true)) == "!invert!xformOp:translate:rotatePivot"
  {
    assert InvertPrefix + "xformOp:translate:rotatePivot" == "!invert!xformOp:translate:rotatePivot";
  }

  lemma InvertedScalePivotOpName()
    ensures OpName(XformOp("xformOp:translate:scalePivot", true)) == "!invert!xformOp:translate:scalePivot"
  {
    assert InvertPrefix + "xformOp:translate:scalePivot" == "!invert!xformOp:translate:scalePivot";
  }

  /** The suffix-less translate, rotate and scale ops land at their own
      positions. */
  lemma TRSNamesRoundTrip()
    ensures OpNdxOf(XformOp(UsdOpName("translate", TRSOpSuffix), false)) == Some(NdxTranslate)
    ensures OpNdxOf(XformOp(UsdOpName("rotateXYZ", TRSOpSuffix), false)) == Some(NdxRotate)
    ensures OpNdxOf(XformOp(UsdOpName("scale", TRSOpSuffix), false)) == Some(NdxScale)
  {
    assert UsdOpName("translate", "") == "xformOp:translate";
    assert UsdOpName("rotateXYZ", "") == "xformOp:rotateXYZ";
    assert UsdOpName("scale", "") == "xformOp:scale";
  }

  /** The handler's suffix check as written: every op's attribute name is
      in the table. The inverse marker is not part of the attribute name,
      so the check does not test the name ordering looks up. */
  method HasValidSuffix(ops: seq<XformOp>) returns (valid: bool)
    ensures valid <==> AllAttrNamesKnown(ops)
  {
    var i := 0;
    while i < |ops|
      invariant 0 <= i <= |ops|
      invariant forall k :: 0 <= k < i ==> ops[k].attrName in OpNameToNdx
    {
      if ops[i].attrName !in OpNameToNdx {
        return false;
      }
      i := i + 1;
    }
    return true;
  }

  /** The corrected check: every op's op name, inverse marker included, is
      in the table, which is exactly what ordering needs. */
  method HasKnownOpNames(ops: seq<XformOp>) returns (valid: bool)
    ensures valid <==> AllOpNamesKnown(OpNdxOf, ops)
  {
    var i := 0;
    while i < |ops|
      invariant 0 <= i <= |ops|
      invariant forall k :: 0 <= k < i ==> OpNdxOf(ops[k]).Some?
    {
      if OpName(ops[i]) !in OpNameToNdx {
        return false;
      }
      i := i + 1;
    }
    return true;
  }

  /** An op whose op name is in the table also has its attribute name
      there: the three inverted names in the table invert known names. */
  lemma KnownOpNameHasKnownAttr(op: XformOp)
    requires OpNdxOf(op).Some?
    ensures op.attrName in OpNameToNdx
  {
    if op.isInverse {
      var name := OpName(op);
      assert op.attrName == name[|InvertPrefix|..];
      assert name[0] == '!';
      assert name == "!invert!xformOp:translate:rotatePivot" || name == "!invert!xformOp:translate:scalePivot" ||
             name == "!invert!xformOp:translate:pivot";
    }
  }

  /** The corrected check is the stricter one. */
  lemma KnownOpNamesHaveKnownAttrs(ops: seq<XformOp>)
    requires AllOpNamesKnown(OpNdxOf, ops)
    ensures AllAttrNamesKnown(ops)
  {
    forall i | 0 <= i < |ops|
      ensures ops[i].attrName in OpNameToNdx
    {
      KnownOpNameHasKnownAttr(ops[i]);
    }
  }

  /** A prim: whether it is transformable, its ordered transform ops and
      its resets-transform-stack flag. */
  datatype Prim = Prim(isXformable: bool, ops: seq<XformOp>, resetsXformStack: bool)

  /** A scene item handed to the handler: a USD item wraps a prim. */
  datatype SceneItem = NonUsdItem | UsdItem(prim: Prim)

  /** What the handler answers: no transform interface, a Maya
      transform-stack interface, or the next handler's answer. */
  datatype Transform3dChoice = NoTransform3d | MayaStackHandler | NextHandler

  /** The handler decision as written, with the suffix check on attribute
      names. matchesMayaStack says whether the Maya stack's matching
      substack of the ops is non-empty. */
  function CreateTransform3dAsWritten(item: SceneItem, matchesMayaStack: seq<XformOp> -> bool): (c: Transform3dChoice)
    ensures c == NoTransform3d <==> !(item.UsdItem? && item.prim.isXformable)
    ensures c == MayaStackHandler ==> AllAttrNamesKnown(item.prim.ops)
    ensures item.UsdItem? && item.prim.isXformable ==>
              (c == MayaStackHandler <==>
                 item.prim.ops == [] || (AllAttrNamesKnown(item.prim.ops) && matchesMayaStack(item.prim.ops)))
  {
    if !item.UsdItem? then NoTransform3d
    else if !item.prim.isXformable then NoTransform3d
    else if item.prim.ops == [] then MayaStackHandler
    else if !AllAttrNamesKnown(item.prim.ops) then NextHandler
    else if !matchesMayaStack(item.prim.ops) then NextHandler
    else MayaStackHandler
  }

  /** The handler decision with the check on op names: a non-USD or
      non-transformable item gets no interface, a prim without ops gets
      this handler, a prim with an unknown op or without a matching
      substack goes to the next handler. */
  function CreateTransform3d(item: SceneItem, matchesMayaStack: seq<XformOp> -> bool): (c: Transform3dChoice)
    ensures c == NoTransform3d <==> !(item.UsdItem? && item.prim.isXformable)
    ensures c == MayaStackHandler ==> AllOpNamesKnown(OpNdxOf, item.prim.ops)
    ensures c == NextHandler ==> item.prim.ops != [] && (!AllOpNamesKnown(OpNdxOf, item.prim.ops) || !matchesMayaStack(item.prim.ops))
    ensures item.UsdItem? && item.prim.isXformable ==>
              (c == MayaStackHandler <==>
                 item.prim.ops == [] || (AllOpNamesKnown(OpNdxOf, item.prim.ops) && matchesMayaStack(item.prim.ops)))
  {
    if !item.UsdItem? then NoTransform3d
    else if !item.prim.isXformable then NoTransform3d
    else if item.prim.ops == [] then MayaStackHandler
    else if !AllOpNamesKnown(OpNdxOf, item.prim.ops) then NextHandler
    else if !matchesMayaStack(item.prim.ops) then NextHandler
    else MayaStackHandler
  }

  /** As written, the handler takes on a prim whose op order holds the
      inverse of a plain translate: its attribute name is in the table but
      its op name is not, so ordering that prim's ops fails. The corrected
      decision hands it on. */
  lemma AsWrittenAcceptsUnorderablePrim()
    ensures var ops := [XformOp("xformOp:translate", true)];
      var item := UsdItem(Prim(true, ops, false));
      CreateTransform3dAsWritten(item, _ => true) == MayaStackHandler &&
      !AllOpNamesKnown(OpNdxOf, ops) &&
      CreateTransform3d(item, _ => true) == NextHandler
  {
    var op := XformOp("xformOp:translate", true);
    InvertedTranslateUnknown();
    assert [op][0] == op;
  }

  /** The inverse of a plain translate has an op name outside the table. */
  lemma InvertedTranslateUnknown()
    ensures OpNdxOf(XformOp("xformOp:translate", true)) == None
  {
    assert OpName(XformOp("xformOp:translate", true)) == "!invert!xformOp:translate";
  }

  /** The two decisions differ only on prims whose ops cannot be ordered,
      which the as-written decision takes and the corrected one hands on. */
  lemma CorrectionOnlyAffectsUnorderablePrims(item: SceneItem, matchesMayaStack: seq<XformOp> -> bool)
    ensures CreateTransform3dAsWritten(item, matchesMayaStack) != CreateTransform3d(item, matchesMayaStack) ==>
              CreateTransform3dAsWritten(item, matchesMayaStack) == MayaStackHandler &&
              CreateTransform3d(item, matchesMayaStack) == NextHandler &&
              !AllOpNamesKnown(OpNdxOf, item.prim.ops)
  {
    if item.UsdItem? && AllOpNamesKnown(OpNdxOf, item.prim.ops) {
      KnownOpNamesHaveKnownAttrs(item.prim.ops);
    }
  }
}
