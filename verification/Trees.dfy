/** Directory trees and their listings. */
module Trees {
  import opened Bytes

  /** A path as the list of its components, without empty and "." components. */
  type Path = seq<bytes>

  datatype Kind = Regular | Directory | Symlink | HardLink | Other

  /** `fillable` is the part of the mode bits that matters here: of a directory, whether its owner may
      create entries in it and remove them. */
  datatype Entry = Entry(path: Path, kind: Kind, data: bytes, fillable: bool)

  /** A path component that a directory can hold: nonempty, no slash, no zero byte, neither of the two
      dot names. */
  predicate ValidComponent(c: bytes) {
    c != [] && 47 !in c && 0 !in c && c != [46] && c != [46, 46]
  }

  datatype Node = File(data: bytes) | Dir(fillable: bool) | Link(target: bytes) | Special

  /** What a directory holds, by path below it; the directory itself is implicit. */
  type Tree = map<Path, Node>

  function Parent(p: Path): Path
    requires p != []
  {
    p[..|p| - 1]
  }

  predicate IsDirIn(t: Tree, p: Path) {
    p == [] || (p in t && t[p].Dir?)
  }

  /** Everything in the tree sits in a directory of the tree. */
  predicate Rooted(t: Tree) {
    forall p :: p in t ==> p != [] && IsDirIn(t, Parent(p))
  }

  predicate WellFormedTree(t: Tree) {
    Rooted(t) && forall p :: p in t ==> forall c :: c in p ==> ValidComponent(c)
  }

  /** Regular files and directories: what extraction brings back. */
  function Restorable(t: Tree): Tree {
    map p | p in t && (t[p].File? || t[p].Dir?) :: t[p]
  }

  predicate CanHold(t: Tree, p: Path) {
    p == [] || (p in t && t[p].Dir? && t[p].fillable)
  }

  /** No file or directory sits in a directory its owner may not create entries in. */
  ghost predicate Refillable(t: Tree) {
    forall p :: p in Restorable(t) && p != [] ==> CanHold(t, Parent(p))
  }

  /** Removing something takes the same permission on its directory as creating it, and a directory is
      removed with all it holds: links and special files too. */
  predicate Removable(t: Tree) {
    forall p :: p in t && p != [] ==> CanHold(t, Parent(p))
  }

  /** So what can be removed could be put back, and what has been put back can be removed. */
  lemma RemovableIsRefillable(t: Tree)
    ensures Removable(t) ==> Refillable(t)
    ensures Removable(Restorable(t)) <==> Refillable(t)
  {
    forall p | p in Restorable(t) && p != []
      ensures CanHold(Restorable(t), Parent(p)) <==> CanHold(t, Parent(p))
    {
    }
  }

  // ---------------------------------------------------------- the listing

  function KindOf(n: Node): Kind {
    match n
    case File(_) => Regular
    case Dir(_) => Directory
    case Link(_) => Symlink
    case Special => Other
  }

  function EntryOf(p: Path, n: Node): Entry {
    Entry(p, KindOf(n), if n.File? then n.data else [], n.Dir? ==> n.fillable)
  }

  /** `es` can be produced by walking `t`: the root and each path once, in any order that puts a
      directory before what it holds. */
  predicate Lists(es: seq<Entry>, t: Tree) {
    && (forall i :: 0 <= i < |es| ==>
          if es[i].path == [] then es[i].kind == Directory
              else es[i].path in t && es[i] == EntryOf(es[i].path, t[es[i].path]))
    && (forall i, j :: 0 <= i < j < |es| ==> es[i].path != es[j].path)
    && (forall p :: p in t ==> Listed(es, p))
    && (forall i :: 0 <= i < |es| && es[i].path != [] && Parent(es[i].path) != [] ==>
        Listed(es[..i], Parent(es[i].path)))
  }

  predicate Listed(es: seq<Entry>, p: Path) {
    exists i :: 0 <= i < |es| && es[i].path == p
  }

  /** The listing of an empty directory. */
  const ROOT_ONLY := [Entry([], Directory, [], true)]
}
