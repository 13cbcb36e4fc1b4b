/** Layer identifiers, sub-layer path references and the relative-path
    arithmetic used when a sub-layer reference changes parent. Paths are
    sequences of directory components; a file identifier is the absolute
    path of the file, its last component being the file name. */
module LayerPaths {

  type Dir = seq<string>

  /** The identifier of a layer: an anonymous (in-memory) layer carries a
      synthetic token, a file-backed layer its absolute path. */
  datatype LayerId = AnonId(token: nat) | FileId(path: seq<string>)

  /** One entry of a layer's sub-layer list, as written in the parent:
      an anonymous identifier, an absolute path, or a path relative to the
      directory of the parent (climbing `ups` directories, then descending
      through `down`). */
  datatype SubPath = AnonRef(token: nat) | AbsRef(path: seq<string>) | RelRef(ups: nat, down: seq<string>)

  /** The directory relative paths are anchored at. An anonymous layer has
      no file; its relative references are anchored at the working
      directory, modelled as the empty directory. */
  function DirOf(id: LayerId): (d: Dir)
    ensures id.FileId? && |id.path| > 0 ==> id.path == d + [id.path[|id.path| - 1]]
    ensures id.AnonId? ==> d == []
  {
    match id
    case AnonId(_) => []
    case FileId(p) => if |p| == 0 then [] else p[..|p| - 1]
  }

  /** Climbing above the file-system root stays at the root. */
  function Climb(d: Dir, ups: nat): (r: Dir)
    ensures ups <= |d| ==> |r| == |d| - ups
    ensures |r| <= |d| && r == d[..|r|]
  {
    if ups <= |d| then d[..|d| - ups] else []
  }

  /** The identifier a sub-layer entry of `parent` designates. */
  function Resolve(parent: LayerId, p: SubPath): LayerId {
    match p
    case AnonRef(t) => AnonId(t)
    case AbsRef(f) => FileId(f)
    case RelRef(ups, down) => FileId(Climb(DirOf(parent), ups) + down)
  }

  /** Length of the longest common prefix of two paths. */
  function CommonPrefixLength(a: seq<string>, b: seq<string>): (n: nat)
    ensures n <= |a| && n <= |b|
    ensures a[..n] == b[..n]
    ensures n < |a| && n < |b| ==> a[n] != b[n]
  {
    if |a| == 0 || |b| == 0 || a[0] != b[0] then 0
    else
      var k := CommonPrefixLength(a[1..], b[1..]);
      assert a[1..][..k] == a[1..k + 1] && b[1..][..k] == b[1..k + 1];
      1 + k
  }

  /** The relative path that reaches `target` from directory `from`. */
  function RelativePath(from: Dir, target: seq<string>): (p: SubPath)
    ensures p.RelRef?
  {
    var n := CommonPrefixLength(from, target);
    RelRef(|from| - n, target[n..])
  }

  lemma RelativePathResolves(from: Dir, target: seq<string>)
    ensures var p := RelativePath(from, target);
            Climb(from, p.ups) + p.down == target
  {
    var n := CommonPrefixLength(from, target);
    assert Climb(from, |from| - n) == from[..n] == target[..n];
    assert target[..n] + target[n..] == target;
  }

  /** The entry a moved sub-layer reference becomes under its new parent:
      a relative path is recomputed from the new parent's directory when
      that directory differs from the old parent's; any other entry is
      kept verbatim. */
  function RebasedSubPath(oldParent: LayerId, newParent: LayerId, p: SubPath): (q: SubPath)
    ensures q.RelRef? <==> p.RelRef?
    ensures !p.RelRef? || DirOf(oldParent) == DirOf(newParent) ==> q == p
  {
    if p.RelRef? && DirOf(oldParent) != DirOf(newParent) then
      RelativePath(DirOf(newParent), Resolve(oldParent, p).path)
    else p
  }

  /** Rewriting a moved entry never changes the layer it designates. */
  lemma {:induction false} RebasedSubPathSameLayer(oldParent: LayerId, newParent: LayerId, p: SubPath)
    ensures Resolve(newParent, RebasedSubPath(oldParent, newParent, p)) == Resolve(oldParent, p)
  {
    if p.RelRef? && DirOf(oldParent) != DirOf(newParent) {
      RelativePathResolves(DirOf(newParent), Resolve(oldParent, p).path);
    }
  }

  /** A relative entry `name` moved from a layer in directory `d + [sub]`
      to a layer in directory `d` becomes `sub/name`. */
  lemma RebaseIntoParentDirectory(d: Dir, sub: string, oldFile: string, newFile: string, name: string)
    ensures RebasedSubPath(FileId(d + [sub, oldFile]), FileId(d + [newFile]), RelRef(0, [name]))
            == RelRef(0, [sub, name])
  {
    var oldP := FileId(d + [sub, oldFile]);
    var newP := FileId(d + [newFile]);
    assert DirOf(oldP) == d + [sub];
    assert DirOf(newP) == d;
    assert Resolve(oldP, RelRef(0, [name])).path == d + [sub, name];
    CommonPrefixOfExtension(d, [sub, name]);
  }

  lemma {:induction false} CommonPrefixOfExtension(d: seq<string>, e: seq<string>)
    ensures CommonPrefixLength(d, d + e) == |d|
  {
    if |d| > 0 {
      assert (d + e)[1..] == d[1..] + e;
      CommonPrefixOfExtension(d[1..], e);
    }
  }
}
