/** Operations on one ordered sub-layer list (strongest entry first), as
    the layer-editor commands apply them. */
module SubLayerLists {
  import opened Wrappers

  /** The list with `x` placed at position `i`; entries from `i` on move
      one place down. */
  function InsertAt<T>(s: seq<T>, i: nat, x: T): (r: seq<T>)
    requires i <= |s|
    ensures |r| == |s| + 1 && r[i] == x
    ensures forall j :: 0 <= j < i ==> r[j] == s[j]
    ensures forall j :: i <= j < |s| ==> r[j + 1] == s[j]
    ensures multiset(r) == multiset(s) + multiset{x}
  {
    assert s == s[..i] + s[i..];
    s[..i] + [x] + s[i..]
  }

  /** The list without its entry at position `i`; the others keep their
      relative order. */
  function RemoveAt<T>(s: seq<T>, i: nat): (r: seq<T>)
    requires i < |s|
    ensures |r| == |s| - 1
    ensures forall j :: 0 <= j < i ==> r[j] == s[j]
    ensures forall j :: i < j < |s| ==> r[j - 1] == s[j]
    ensures multiset(r) + multiset{s[i]} == multiset(s)
  {
    assert s == s[..i] + [s[i]] + s[i + 1..];
    s[..i] + s[i + 1..]
  }

  lemma RemoveInsertRoundTrip<T>(s: seq<T>, i: nat, x: T)
    requires i <= |s|
    ensures RemoveAt(InsertAt(s, i, x), i) == s
  {
  }

  lemma InsertRemoveRoundTrip<T>(s: seq<T>, i: nat)
    requires i < |s|
    ensures InsertAt(RemoveAt(s, i), i, s[i]) == s
  {
  }

  /** Position of the first occurrence of `x`, if any. */
  function IndexOf<T(==)>(s: seq<T>, x: T): (r: Option<nat>)
    ensures r.None? <==> x !in s
    ensures r.Some? ==> r.value < |s| && s[r.value] == x && x !in s[..r.value]
  {
    if |s| == 0 then None
    else if s[0] == x then Some(0)
    else
      match IndexOf(s[1..], x)
      case None => None
      case Some(k) =>
        assert s[..k + 1] == [s[0]] + s[1..][..k];
        Some(k + 1)
  }

  /** The list with the entry at `i` replaced by `x`, everything else in
      place. */
  function ReplaceAt<T>(s: seq<T>, i: nat, x: T): (r: seq<T>)
    requires i < |s|
    ensures |r| == |s| && r[i] == x
    ensures forall j :: 0 <= j < |s| && j != i ==> r[j] == s[j]
  {
    s[i := x]
  }

  /** Replacing an entry is removing it and inserting the new one in its
      place; it swaps one entry of the multiset for another, and putting
      the old entry back restores the list. */
  lemma ReplaceAtIsRemoveThenInsert<T>(s: seq<T>, i: nat, x: T)
    requires i < |s|
    ensures ReplaceAt(s, i, x) == InsertAt(RemoveAt(s, i), i, x)
    ensures multiset(ReplaceAt(s, i, x)) + multiset{s[i]} == multiset(s) + multiset{x}
    ensures ReplaceAt(ReplaceAt(s, i, x), i, s[i]) == s
  {
    var spliced := InsertAt(RemoveAt(s, i), i, x);
    assert forall j :: 0 <= j < |s| ==> spliced[j] == ReplaceAt(s, i, x)[j];
  }

  /** The test suite's reference for a move inside one list: take `x` out
      of a copy of the list, then insert it at `i`. */
  function MoveElement<T(==)>(s: seq<T>, x: T, i: nat): (r: seq<T>)
    requires x in s && i < |s|
    ensures |r| == |s| && r[i] == x
    ensures multiset(r) == multiset(s)
  {
    var k := IndexOf(s, x).value;
    InsertAt(RemoveAt(s, k), i, x)
  }

  /** Moving an entry back to where it was leaves the list unchanged. */
  lemma MoveElementToOwnPlace<T>(s: seq<T>, i: nat)
    requires i < |s| && s[i] !in s[..i]
    ensures MoveElement(s, s[i], i) == s
  {
    var k := IndexOf(s, s[i]).value;
    assert k == i;
    InsertRemoveRoundTrip(s, i);
  }

  /** The list without the entries whose positions are in `idx`; all
      positions refer to the list as it was before any removal. */
  function RemoveIndices<T>(s: seq<T>, idx: set<int>): (r: seq<T>)
    ensures |r| <= |s|
    ensures multiset(r) <= multiset(s)
  {
    if |s| == 0 then []
    else
      var init := RemoveIndices(s[..|s| - 1], idx);
      assert s == s[..|s| - 1] + [s[|s| - 1]];
      if |s| - 1 in idx then init else init + [s[|s| - 1]]
  }

  /** An entry whose position is not in the batch survives; every
      surviving entry comes from the original list at a position outside
      the batch. */
  lemma {:induction false} RemoveIndicesKeeps<T>(s: seq<T>, idx: set<int>, j: int)
    requires 0 <= j < |s| && j !in idx
    ensures s[j] in RemoveIndices(s, idx)
  {
    var last := |s| - 1;
    if j < last {
      RemoveIndicesKeeps(s[..last], idx, j);
    }
  }

  /** Removing a batch holding one position is the single removal. */
  lemma RemoveIndicesSingle<T>(s: seq<T>, i: nat)
    requires i < |s|
    ensures RemoveIndices(s, {i}) == RemoveAt(s, i)
  {
    RemoveIndicesSingleSplice(s, i);
  }

  lemma {:induction false} RemoveIndicesSingleSplice<T>(s: seq<T>, i: nat)
    requires i < |s|
    ensures RemoveIndices(s, {i}) == s[..i] + s[i + 1..]
  {
    var last := |s| - 1;
    var init := s[..last];
    if i < last {
      RemoveIndicesSingleSplice(init, i);
      assert RemoveIndices(s, {i}) == RemoveIndices(init, {i}) + [s[last]];
      SpliceThenAppendLast(s, i);
    } else {
      RemoveIndicesLast(s);
    }
  }

  lemma RemoveIndicesLast<T>(s: seq<T>)
    requires |s| > 0
    ensures RemoveIndices(s, {|s| - 1}) == s[..|s| - 1] + s[|s|..]
  {
    RemoveIndicesNone(s[..|s| - 1], {|s| - 1});
    assert s[|s|..] == [];
  }

  /** Cutting position `i` out of all but the last entry, then appending
      the last entry, cuts position `i` out of the whole list. */
  lemma SpliceThenAppendLast<T>(s: seq<T>, i: nat)
    requires i < |s| - 1
    ensures s[..|s| - 1][..i] + s[..|s| - 1][i + 1..] + [s[|s| - 1]] == s[..i] + s[i + 1..]
  {
    var last := |s| - 1;
    assert s[..last][..i] == s[..i];
    assert s[..last][i + 1..] + [s[last]] == s[i + 1..];
  }

  /** A batch none of whose positions are in range removes nothing. */
  lemma {:induction false} RemoveIndicesNone<T>(s: seq<T>, idx: set<int>)
    requires forall j :: j in idx ==> j < 0 || j >= |s|
    ensures RemoveIndices(s, idx) == s
  {
    if |s| > 0 {
      RemoveIndicesNone(s[..|s| - 1], idx);
    }
  }

  /** Removing the batch of the first `k` positions leaves the original
      entries from position `k` on, in order. */
  lemma {:induction false} RemoveIndicesPrefix<T>(s: seq<T>, k: nat, idx: set<int>)
    requires k <= |s|
    requires forall j :: j in idx <==> 0 <= j < k
    ensures RemoveIndices(s, idx) == s[k..]
  {
    if |s| > 0 {
      var last := |s| - 1;
      if last < k {
        RemoveIndicesAll(s, idx);
      } else {
        RemoveIndicesPrefix(s[..last], k, idx);
        assert s[..last][k..] + [s[last]] == s[k..];
      }
    }
  }

  lemma {:induction false} RemoveIndicesAll<T>(s: seq<T>, idx: set<int>)
    requires forall j :: 0 <= j < |s| ==> j in idx
    ensures RemoveIndices(s, idx) == []
  {
    if |s| > 0 {
      RemoveIndicesAll(s[..|s| - 1], idx);
    }
  }

  /** Whether every position of a batch lies in `[0, n)`. */
  method AllIndicesInRange(indices: seq<int>, n: nat) returns (ok: bool)
    ensures ok <==> forall j :: j in indices ==> 0 <= j < n
  {
    var i := 0;
    while i < |indices|
      invariant 0 <= i <= |indices|
      invariant forall k :: 0 <= k < i ==> 0 <= indices[k] < n
    {
      if !(0 <= indices[i] < n) {
        assert indices[i] in indices;
        return false;
      }
      i := i + 1;
    }
    return true;
  }

  /** Copies the entries of `s` whose positions are not in `indices`, in
      order, into a new list. */
  method KeepOtherEntries<T>(s: seq<T>, indices: seq<int>) returns (kept: seq<T>)
    ensures kept == RemoveIndices(s, set j | j in indices)
  {
    ghost var idx := set j | j in indices;
    kept := [];
    var n := 0;
    while n < |s|
      invariant 0 <= n <= |s|
      invariant kept == RemoveIndices(s[..n], idx)
    {
      assert s[..n + 1][..n] == s[..n];
      if n !in indices {
        kept := kept + [s[n]];
      }
      n := n + 1;
    }
    assert s[..n] == s;
  }
}
