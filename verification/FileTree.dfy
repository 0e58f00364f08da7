/**
 A directory tree as the traversals in this project see it: every path below a
 fixed root, mapped to what lstat(2) and read(2) would report there.  The root
 itself is an existing directory, is written `[]`, and is never a key.
 */
module FileTree {
  import opened Common

  newtype byte = x: int | 0 <= x < 256

  type Name = seq<byte>
  type Path = seq<Name>

  datatype Entry =
    | File(content: seq<byte>, mode: nat)
    | Dir(mode: nat)
    | Link(target: seq<byte>)
    | Special(kind: nat, mode: nat)  // device, socket or FIFO, told apart by kind

  type Tree = map<Path, Entry>

  /** The last path component and the directory that holds it. */
  function Parent(p: Path): Path
    requires p != []
  {
    p[..|p| - 1]
  }

  function At(t: Tree, p: Path): Option<Entry> {
    if p in t then Some(t[p]) else None
  }

  predicate IsDir(t: Tree, p: Path) {
    p == [] || (p in t && t[p].Dir?)
  }

  /** Only directories have anything below them. */
  ghost predicate WellFormed(t: Tree) {
    [] !in t && forall p {:trigger Parent(p)} :: p != [] && p in t ==> IsDir(t, Parent(p))
  }

  lemma WellFormedNotRoot(t: Tree, q: Path)
    requires WellFormed(t) && q in t
    ensures q != []
  {
  }

  lemma {:induction false} PrefixIsDir(t: Tree, p: Path, k: nat)
    requires WellFormed(t) && p in t && k < |p|
    ensures IsDir(t, p[..k])
    decreases |p|
  {
    assert IsDir(t, Parent(p));
    if k < |p| - 1 {
      PrefixIsDir(t, Parent(p), k);
      assert Parent(p)[..k] == p[..k];
    }
  }

  lemma NothingBelow(t: Tree, p: Path)
    requires WellFormed(t) && !IsDir(t, p)
    ensures forall q :: q in t ==> !(p < q)
  {
    forall q | q in t
      ensures !(p < q)
    {
      if |p| < |q| {
        PrefixIsDir(t, q, |p|);
        assert q[..|p|] != p;
      }
    }
  }

  lemma ChildOnTheWay(s: Tree, p: Path, q: Path)
    requires WellFormed(s) && p < q && q in s
    ensures p + [q[|p|]] <= q && p + [q[|p|]] in s
  {
    assert q[..|p| + 1] == p + [q[|p|]];
    if |p| + 1 < |q| {
      PrefixIsDir(s, q, |p| + 1);
    } else {
      assert q == q[..|p| + 1];
    }
  }

  lemma SameAt(a: Tree, b: Tree)
    requires forall q :: At(a, q) == At(b, q)
    ensures a == b
  {
    forall q
      ensures q in a <==> q in b
      ensures q in a && q in b ==> a[q] == b[q]
    {
      assert At(a, q) == At(b, q);
    }
  }

  function Children(t: Tree, p: Path): set<Name> {
    set q | q in t && |q| == |p| + 1 && p <= q :: q[|p|]
  }

  lemma ChildrenAre(t: Tree, p: Path, n: Name)
    ensures n in Children(t, p) <==> p + [n] in t
  {
    if p + [n] in t {
      var q := p + [n];
      assert |q| == |p| + 1 && p <= q && q[|p|] == n;
    }
    if n in Children(t, p) {
      var q :| q in t && |q| == |p| + 1 && p <= q && q[|p|] == n;
      assert q == p + [n];
    }
  }

  /** Everything strictly below `p`; shrinks on every step down. */
  function Below(t: Tree, p: Path): set<Path> {
    set q | q in t && p < q
  }

  lemma BelowShrinks(t: Tree, p: Path, n: Name)
    requires p + [n] in t
    ensures Below(t, p + [n]) < Below(t, p)
  {
    assert p + [n] in Below(t, p);
    assert p + [n] !in Below(t, p + [n]);
  }

  /** The tree without `p` and what lies below it. */
  function Cut(t: Tree, p: Path): Tree {
    map q | q in t && !(p <= q) :: t[q]
  }

  lemma CutAbsent(t: Tree, p: Path)
    requires WellFormed(t) && p != [] && p !in t
    ensures Cut(t, p) == t
  {
    NothingBelow(t, p);
    assert forall q :: q in t ==> (p <= q ==> q == p || p < q);
  }

  lemma CutForgets(t: Tree, p: Path, e: Entry)
    ensures Cut(t[p := e], p) == Cut(t, p)
  {
  }

  lemma CutWellFormed(t: Tree, p: Path)
    requires WellFormed(t) && p != []
    ensures WellFormed(Cut(t, p))
  {
    var c := Cut(t, p);
    forall q | q in c
      ensures q != [] && IsDir(c, Parent(q))
    {
      assert p <= Parent(q) ==> p <= q;
    }
  }

  lemma PutWellFormed(t: Tree, p: Path, e: Entry)
    requires WellFormed(t) && p != [] && IsDir(t, Parent(p))
    requires e.Dir? || forall q :: q in t ==> !(p < q)
    ensures WellFormed(t[p := e])
  {
    forall q | q in t[p := e]
      ensures q != [] && IsDir(t[p := e], Parent(q))
    {
      assert Parent(q) == p ==> p < q;
    }
  }

  /** A loop over a listing has dealt with exactly its first `i` names, collected in `done`. */
  ghost predicate Taken(names: seq<Name>, i: nat, done: set<Name>) {
    && (forall k :: 0 <= k < |names| && k < i ==> names[k] in done)
    && (forall k :: i <= k < |names| ==> names[k] !in done)
  }

  lemma TakeNext(names: seq<Name>, i: nat, done: set<Name>)
    requires i < |names| && Taken(names, i, done)
    requires forall k, l :: 0 <= k < l < |names| ==> names[k] != names[l]
    ensures Taken(names, i + 1, done + {names[i]})
  {
  }

  lemma AllTaken(names: seq<Name>, done: set<Name>)
    requires Taken(names, |names|, done)
    ensures forall n :: n in names ==> n in done
  {
  }

  /**
   A filesystem holding one such tree, changed in place by system calls.  On a
   reliable volume every call whose arguments are sound succeeds; otherwise any
   call may fail, and a failed call promises nothing about what it left behind.
   */
  class Volume {
    var nodes: Tree
    const reliable: bool
    /** The mode of a directory just made: what the process's umask leaves of the mode asked for. */
    const freshMode: nat

    constructor (nodes: Tree, reliable: bool, freshMode: nat)
      ensures this.nodes == nodes && this.reliable == reliable && this.freshMode == freshMode
    {
      this.nodes := nodes;
      this.reliable := reliable;
      this.freshMode := freshMode;
    }

    /** Whether the next system call goes through. */
    method Outcome() returns (ok: bool)
      ensures reliable ==> ok
    {
      ok := *;
      ok := ok || reliable;
    }

    /** readdir(3): each entry once, in no particular order. */
    method ReadDir(p: Path) returns (ok: bool, names: seq<Name>)
      requires IsDir(nodes, p)
      ensures reliable ==> ok
      ensures forall n :: n in names <==> p + [n] in nodes
      ensures forall i, j :: 0 <= i < j < |names| ==> names[i] != names[j]
    {
      ok := Outcome();
      names := [];
      var rest := Children(nodes, p);
      while rest != {}
        invariant forall n :: n in Children(nodes, p) <==> n in rest || n in names
        invariant forall n :: n in rest ==> n !in names
        invariant forall i, j :: 0 <= i < j < |names| ==> names[i] != names[j]
        decreases rest
      {
        var n :| n in rest;
        names, rest := names + [n], rest - {n};
      }
      forall n ensures n in names <==> p + [n] in nodes {
        ChildrenAre(nodes, p, n);
      }
    }

    /** unlink(2), or removal of a directory with everything in it. */
    method Remove(p: Path) returns (ok: bool)
      requires WellFormed(nodes) && p in nodes
      modifies this`nodes
      ensures reliable ==> ok
      ensures ok ==> nodes == Cut(old(nodes), p) && WellFormed(nodes)
    {
      ok := Outcome();
      if ok {
        CutWellFormed(nodes, p);
        nodes := Cut(nodes, p);
      }
    }

    /** rename(2) of a file: replaces what the new name holds, unless that is a directory. */
    method Rename(p: Path, q: Path) returns (ok: bool)
      requires WellFormed(nodes) && p in nodes && !nodes[p].Dir? && p != q
      requires q != [] && IsDir(nodes, Parent(q))
      modifies this`nodes
      ensures ok ==> !IsDir(old(nodes), q)
      ensures reliable && !IsDir(old(nodes), q) ==> ok
      ensures ok ==> nodes == Cut(old(nodes), p)[q := old(nodes)[p]] && WellFormed(nodes)
    {
      if IsDir(nodes, q) { return false; }
      ok := Outcome();
      if ok {
        var e := nodes[p];
        NothingBelow(nodes, p);
        NothingBelow(nodes, q);
        CutWellFormed(nodes, p);
        var dir := Parent(q);
        assert dir == p || p < dir || !(p <= dir);
        PutWellFormed(Cut(nodes, p), q, e);
        nodes := Cut(nodes, p)[q := e];
      }
    }

    /** mkdir(2), write(2) of a new file, symlink(2) or chmod(2): store one entry. */
    method Put(p: Path, e: Entry) returns (ok: bool)
      requires WellFormed(nodes) && p != [] && IsDir(nodes, Parent(p))
      requires e.Dir? || forall q :: q in nodes ==> !(p < q)
      modifies this`nodes
      ensures reliable ==> ok
      ensures ok ==> nodes == old(nodes)[p := e] && WellFormed(nodes)
    {
      ok := Outcome();
      if ok {
        PutWellFormed(nodes, p, e);
        nodes := nodes[p := e];
      }
    }
  }
}
