/**
 Staged workspaces: a host directory is copied into a private staging area
 before the run, and the staging area is mirrored back afterwards.

 Both sides are volumes changed in place.  Source and destination paths always
 agree below their roots, so one path names both.
 */
module Workspace {
  import opened Common
  import opened FileTree

  const MAX_WORKSPACE_DEPTH := 256

  // ---------- what the two passes do, path by path ----------

  /** Some prefix of `q` is staged as a file or link, so the copy replaces it and drops what was below. */
  ghost predicate Replaced(s: Tree, q: Path) {
    exists i :: 0 < i <= |q| && q[..i] in s && (s[q[..i]].File? || s[q[..i]].Link?)
  }

  /** What the copy leaves at `q`, given what the destination held before. */
  ghost function Copied(s: Tree, d: Tree, q: Path): Option<Entry> {
    if q in s && !s[q].Special? then Some(s[q])
    else if Replaced(s, q) then None
    else At(d, q)
  }

  /** The copy was carried out at and below `p`, and nowhere else. */
  ghost predicate CopiedFrom(s: Tree, was: Tree, now: Tree, p: Path) {
    forall q :: At(now, q) == if p <= q then Copied(s, was, q) else At(was, q)
  }

  /** The copy was carried out strictly below `p`, and nowhere else. */
  ghost predicate CopiedBelow(s: Tree, was: Tree, now: Tree, p: Path) {
    forall q :: At(now, q) == if p < q then Copied(s, was, q) else At(was, q)
  }

  /** Some prefix of `q` is missing from a staged directory, so the cleanup removes it. */
  ghost predicate Stale(s: Tree, q: Path) {
    exists i :: 0 < i <= |q| && q[..i] !in s && IsDir(s, Parent(q[..i]))
  }

  /** What the cleanup leaves at `q`. */
  ghost function Cleaned(s: Tree, d: Tree, q: Path): Option<Entry> {
    if Stale(s, q) then None else At(d, q)
  }

  /** Some prefix of `q` is staged as a special file; the copy never touches anything there. */
  ghost predicate Shielded(s: Tree, q: Path) {
    exists i :: 0 < i <= |q| && q[..i] in s && s[q[..i]].Special?
  }

  /** What a whole sync-out leaves at `q`. */
  ghost function Synced(s: Tree, d: Tree, q: Path): Option<Entry> {
    if q in s && !s[q].Special? then Some(s[q])
    else if Shielded(s, q) then At(d, q)
    else None
  }

  /** No directory of the tree is nested deeper than the traversals go. */
  ghost predicate WithinDepth(s: Tree) {
    forall p :: p in s && s[p].Dir? ==> |p| <= 256
  }

  ghost predicate WithinDepthBelow(s: Tree, p: Path) {
    forall q :: q in s && p <= q && s[q].Dir? ==> |q| <= 256
  }

  // ---------- the copy pass ----------

  method RemoveExisting(d: Volume, p: Path) returns (ok: bool)
    requires WellFormed(d.nodes) && p != []
    modifies d`nodes
    ensures d.reliable ==> ok
    ensures ok ==> d.nodes == Cut(old(d.nodes), p) && WellFormed(d.nodes)
  {
    ok := d.Outcome();
    if !ok { return; }
    if p in d.nodes {
      ok := d.Remove(p);
    } else {
      CutAbsent(d.nodes, p);
    }
  }

  lemma LeafWithinDepth(s: Tree, p: Path)
    requires WellFormed(s) && p in s && !s[p].Dir?
    ensures WithinDepthBelow(s, p)
  {
    NothingBelow(s, p);
    assert forall q :: q in s ==> (p <= q ==> q == p || p < q);
  }

  lemma ChildWithinDepth(s: Tree, p: Path, n: Name)
    requires WithinDepthBelow(s, p)
    ensures WithinDepthBelow(s, p + [n])
  {
    assert forall q :: q in s ==> (p + [n] <= q ==> p <= q);
  }

  lemma DirWithinDepth(s: Tree, p: Path, names: set<Name>)
    requires WellFormed(s) && |p| <= MAX_WORKSPACE_DEPTH
    requires forall n :: p + [n] in s ==> n in names
    requires forall n :: n in names ==> WithinDepthBelow(s, p + [n])
    ensures WithinDepthBelow(s, p)
  {
    forall q | q in s && p <= q && s[q].Dir?
      ensures |q| <= MAX_WORKSPACE_DEPTH
    {
      if p < q {
        ChildOnTheWay(s, p, q);
        assert WithinDepthBelow(s, p + [q[|p|]]);
      }
    }
  }

  lemma CopiedLeaf(s: Tree, was: Tree, p: Path)
    requires WellFormed(s) && p in s && (s[p].File? || s[p].Link?)
    ensures CopiedFrom(s, was, Cut(was, p)[p := s[p]], p)
  {
    NothingBelow(s, p);
    var now := Cut(was, p)[p := s[p]];
    forall q
      ensures At(now, q) == if p <= q then Copied(s, was, q) else At(was, q)
    {
      if p <= q {
        assert q[..|p|] == p;
        assert q == p || p < q;
      }
    }
  }

  lemma CopiedSpecial(s: Tree, was: Tree, p: Path)
    requires WellFormed(s) && p in s && s[p].Special?
    ensures CopiedFrom(s, was, was, p)
  {
    NothingBelow(s, p);
    forall q | p <= q
      ensures Copied(s, was, q) == At(was, q)
    {
      forall i | |p| < i <= |q|
        ensures q[..i] !in s
      {
        assert p < q[..i];
      }
      forall i | 0 < i <= |p|
        ensures q[..i] in s && (s[q[..i]].Dir? || s[q[..i]].Special?)
      {
        if i < |p| {
          PrefixIsDir(s, p, i);
          assert q[..i] == p[..i];
        } else {
          assert q[..i] == p;
        }
      }
      assert q == p || p < q;
    }
  }

  /** Opening a directory at `p`, filling it and setting its mode copies the whole directory. */
  lemma CopiedDir(s: Tree, was: Tree, created: Tree, filled: Tree, p: Path)
    requires WellFormed(s) && p in s && s[p].Dir?
    requires forall q :: q != p ==> At(created, q) == At(was, q)
    requires CopiedBelow(s, created, filled, p)
    ensures CopiedFrom(s, was, filled[p := s[p]], p)
  {
    var now := filled[p := s[p]];
    forall q
      ensures At(now, q) == if p <= q then Copied(s, was, q) else At(was, q)
    {
      assert p <= q <==> q == p || p < q;
      assert q != p ==> At(created, q) == At(was, q);
    }
  }

  method CopyEntry(s: Volume, d: Volume, p: Path, depth: nat) returns (ok: bool)
    requires s != d && p != [] && depth == |p|
    requires WellFormed(s.nodes) && WellFormed(d.nodes)
    requires p in s.nodes && IsDir(d.nodes, Parent(p))
    modifies d`nodes
    ensures ok ==> WellFormed(d.nodes) && CopiedFrom(s.nodes, old(d.nodes), d.nodes, p)
    ensures ok ==> WithinDepthBelow(s.nodes, p)
    ensures s.reliable && d.reliable && WithinDepthBelow(s.nodes, p) ==> ok
    decreases MAX_WORKSPACE_DEPTH + 1 - depth, 2
  {
    var e := s.nodes[p];
    if !e.Dir? {
      LeafWithinDepth(s.nodes, p);
    }
    match e {
      case Dir(mode) =>
        ok := CopyDir(s, d, p, depth);
      case File(content, mode) =>
        CopiedLeaf(s.nodes, d.nodes, p);
        ok := RemoveExisting(d, p);
        if !ok { return; }
        ok := d.Put(p, File(content, mode));  // the copy takes the permission bits along
        if !ok { return; }
        ok := d.Put(p, File(content, mode));
      case Link(target) =>
        CopiedLeaf(s.nodes, d.nodes, p);
        ok := RemoveExisting(d, p);
        if !ok { return; }
        ok := d.Put(p, Link(target));
      case Special(_, _) =>
        CopiedSpecial(s.nodes, d.nodes, p);
        ok := true;
    }
  }

  /** Makes `p` a directory, keeping one that is already there with what it holds. */
  method OpenDir(d: Volume, p: Path) returns (ok: bool)
    requires WellFormed(d.nodes) && p != [] && IsDir(d.nodes, Parent(p))
    modifies d`nodes
    ensures d.reliable ==> ok
    ensures ok ==> WellFormed(d.nodes) && IsDir(d.nodes, p)
    ensures ok ==> forall q :: q != p ==> At(d.nodes, q) == At(old(d.nodes), q)
  {
    ok := d.Outcome();
    if !ok || (p in d.nodes && d.nodes[p].Dir?) { return; }
    NothingBelow(d.nodes, p);
    ok := RemoveExisting(d, p);
    if !ok { return; }
    ok := d.Put(p, Dir(d.freshMode));
    assert forall q :: q in old(d.nodes) ==> (p <= q ==> q == p || p < q);
  }

  method CopyDir(s: Volume, d: Volume, p: Path, depth: nat) returns (ok: bool)
    requires s != d && p != [] && depth == |p|
    requires WellFormed(s.nodes) && WellFormed(d.nodes)
    requires p in s.nodes && s.nodes[p].Dir? && IsDir(d.nodes, Parent(p))
    modifies d`nodes
    ensures ok ==> WellFormed(d.nodes) && CopiedFrom(s.nodes, old(d.nodes), d.nodes, p)
    ensures ok ==> WithinDepthBelow(s.nodes, p)
    ensures s.reliable && d.reliable && WithinDepthBelow(s.nodes, p) ==> ok
    decreases MAX_WORKSPACE_DEPTH + 1 - depth, 1
  {
    ok := OpenDir(d, p);
    if !ok { return; }
    ghost var created := d.nodes;
    ok := CopyChildren(s, d, p, depth);
    if !ok { return; }
    CopiedDir(s.nodes, old(d.nodes), created, d.nodes, p);
    assert At(d.nodes, p) == At(created, p);
    assert At(d.nodes, Parent(p)) == At(created, Parent(p));
    ok := d.Put(p, s.nodes[p]);
  }

  /** The first `i` listed children of `p` have been copied. */
  ghost predicate CopiedSome(s: Tree, was: Tree, now: Tree, p: Path, done: set<Name>) {
    forall q :: At(now, q) == if p < q && q[|p|] in done then Copied(s, was, q) else At(was, q)
  }

  lemma CopiedOneMore(s: Tree, was: Tree, before: Tree, now: Tree, p: Path, done: set<Name>, n: Name)
    requires n !in done
    requires CopiedSome(s, was, before, p, done)
    requires CopiedFrom(s, before, now, p + [n])
    ensures CopiedSome(s, was, now, p, done + {n})
  {
    forall q
      ensures At(now, q) == if p < q && q[|p|] in done + {n} then Copied(s, was, q) else At(was, q)
    {
      assert p + [n] <= q <==> p < q && q[|p|] == n;
      assert At(before, q) == if p < q && q[|p|] in done then Copied(s, was, q) else At(was, q);
    }
  }

  lemma CopiedAll(s: Tree, was: Tree, now: Tree, p: Path, done: set<Name>)
    requires WellFormed(s) && IsDir(s, p)
    requires forall n :: p + [n] in s ==> n in done
    requires CopiedSome(s, was, now, p, done)
    ensures CopiedBelow(s, was, now, p)
  {
    forall q
      ensures At(now, q) == if p < q then Copied(s, was, q) else At(was, q)
    {
      if p < q && q[|p|] !in done {
        CopiedUnstaged(s, was, p, q);
      }
    }
  }

  /** A child that is not staged is left alone. */
  lemma CopiedUnstaged(s: Tree, d: Tree, p: Path, q: Path)
    requires WellFormed(s) && IsDir(s, p) && p < q && p + [q[|p|]] !in s
    ensures Copied(s, d, q) == At(d, q)
  {
    forall i | |p| < i <= |q|
      ensures q[..i] !in s
    {
      if q[..i] in s {
        ChildOnTheWay(s, p, q[..i]);
      }
    }
    assert q[..|q|] == q;
    forall i | 0 < i <= |p|
      ensures IsDir(s, q[..i])
    {
      assert q[..i] == p[..i];
      if i < |p| {
        PrefixIsDir(s, p, i);
      } else {
        assert p[..i] == p;
      }
    }
  }

  lemma CopiedKeepsParent(s: Tree, before: Tree, now: Tree, p: Path, n: Name)
    requires CopiedFrom(s, before, now, p + [n]) && IsDir(before, p)
    ensures IsDir(now, p)
  {
    assert At(now, p) == At(before, p);
  }

  method CopyChildren(s: Volume, d: Volume, p: Path, depth: nat) returns (ok: bool)
    requires s != d && depth == |p|
    requires WellFormed(s.nodes) && WellFormed(d.nodes)
    requires IsDir(s.nodes, p) && IsDir(d.nodes, p)
    modifies d`nodes
    ensures ok ==> WellFormed(d.nodes) && CopiedBelow(s.nodes, old(d.nodes), d.nodes, p)
    ensures ok ==> WithinDepthBelow(s.nodes, p)
    ensures s.reliable && d.reliable && WithinDepthBelow(s.nodes, p) ==> ok
    decreases MAX_WORKSPACE_DEPTH + 1 - depth, 0
  {
    if depth > MAX_WORKSPACE_DEPTH { return false; }
    var names;
    ok, names := s.ReadDir(p);
    if !ok { return; }
    ghost var was := d.nodes;
    ghost var done: set<Name> := {};
    for i := 0 to |names|
      invariant WellFormed(d.nodes) && IsDir(d.nodes, p)
      invariant Taken(names, i, done)
      invariant CopiedSome(s.nodes, was, d.nodes, p, done)
      invariant forall n :: n in done ==> WithinDepthBelow(s.nodes, p + [n])
    {
      ghost var before := d.nodes;
      var c := p + [names[i]];
      assert names[i] in names;
      assert Parent(c) == p;
      if WithinDepthBelow(s.nodes, p) {
        ChildWithinDepth(s.nodes, p, names[i]);
      }
      ok := CopyEntry(s, d, c, depth + 1);
      if !ok { return; }
      CopiedOneMore(s.nodes, was, before, d.nodes, p, done, names[i]);
      CopiedKeepsParent(s.nodes, before, d.nodes, p, names[i]);
      TakeNext(names, i, done);
      done := done + {names[i]};
    }
    AllTaken(names, done);
    CopiedAll(s.nodes, was, d.nodes, p, done);
    DirWithinDepth(s.nodes, p, done);
  }

  // ---------- the cleanup pass ----------

  /**
   The cleanup left at `q` what it should.  It takes a staged entry it cannot stat for a
   missing one, so on a stage whose calls may fail (not `exact`) it may remove too much.
   */
  ghost predicate CleanedAt(s: Tree, was: Tree, now: Tree, q: Path, exact: bool) {
    At(now, q) == Cleaned(s, was, q) || (!exact && At(now, q) == None)
  }

  /** The cleanup was carried out strictly below `p`, for the children in `done`, and nowhere else. */
  ghost predicate CleanedSome(s: Tree, was: Tree, now: Tree, p: Path, done: set<Name>, exact: bool) {
    forall q :: if p < q && q[|p|] in done then CleanedAt(s, was, now, q, exact) else At(now, q) == At(was, q)
  }

  ghost predicate CleanedFrom(s: Tree, was: Tree, now: Tree, p: Path, exact: bool) {
    forall q :: if p <= q then CleanedAt(s, was, now, q, exact) else At(now, q) == At(was, q)
  }

  ghost predicate CleanedBelow(s: Tree, was: Tree, now: Tree, p: Path, exact: bool) {
    forall q :: if p < q then CleanedAt(s, was, now, q, exact) else At(now, q) == At(was, q)
  }

  /** One child of `p` has been dealt with. */
  lemma CleanedOneMore(s: Tree, was: Tree, before: Tree, now: Tree, p: Path, done: set<Name>, n: Name, exact: bool)
    requires n !in done
    requires CleanedSome(s, was, before, p, done, exact)
    requires CleanedFrom(s, before, now, p + [n], exact)
    ensures CleanedSome(s, was, now, p, done + {n}, exact)
  {
    forall q
      ensures if p < q && q[|p|] in done + {n} then CleanedAt(s, was, now, q, exact) else At(now, q) == At(was, q)
    {
      assert p + [n] <= q <==> p < q && q[|p|] == n;
      assert if p < q && q[|p|] in done then CleanedAt(s, was, before, q, exact) else At(before, q) == At(was, q);
      assert if p + [n] <= q then CleanedAt(s, before, now, q, exact) else At(now, q) == At(before, q);
    }
  }

  /** A child missing from a staged directory, or taken for missing, goes with everything below it. */
  lemma CleanedMissing(s: Tree, was: Tree, c: Path, exact: bool)
    requires c != [] && (exact ==> c !in s && IsDir(s, Parent(c)))
    ensures CleanedFrom(s, was, Cut(was, c), c, exact)
  {
    forall q
      ensures if c <= q then CleanedAt(s, was, Cut(was, c), q, exact) else At(Cut(was, c), q) == At(was, q)
    {
      if c <= q {
        assert q[..|c|] == c;
        assert exact ==> Stale(s, q);
      }
    }
  }

  /** A child that both sides have, but not both as directories, stays as it is. */
  lemma CleanedConflict(s: Tree, was: Tree, c: Path, exact: bool)
    requires WellFormed(s) && WellFormed(was) && c in s && c in was
    requires !s[c].Dir? || !was[c].Dir?
    ensures CleanedFrom(s, was, was, c, exact)
  {
    forall q | c <= q
      ensures Cleaned(s, was, q) == At(was, q)
    {
      assert q == c || c < q;
      if q == c {
        StagedIsNotStale(s, c);
      } else if !s[c].Dir? {
        BelowLeafIsNotStale(s, c, q);
      } else {
        NothingBelow(was, c);
      }
    }
  }

  lemma StagedIsNotStale(s: Tree, c: Path)
    requires WellFormed(s) && c in s
    ensures !Stale(s, c)
    ensures forall i :: 0 < i <= |c| ==> c[..i] in s
  {
    forall i | 0 < i <= |c|
      ensures c[..i] in s
    {
      if i < |c| {
        PrefixIsDir(s, c, i);
      } else {
        assert c[..i] == c;
      }
    }
  }

  lemma BelowLeafIsNotStale(s: Tree, c: Path, q: Path)
    requires WellFormed(s) && c in s && !s[c].Dir? && c < q
    ensures !Stale(s, q)
  {
    StagedIsNotStale(s, c);
    NothingBelow(s, c);
    forall i | 0 < i <= |q|
      ensures q[..i] in s || !IsDir(s, Parent(q[..i]))
    {
      if i <= |c| {
        assert q[..i] == c[..i];
      } else if i == |c| + 1 {
        assert Parent(q[..i]) == c;
      } else {
        assert c < Parent(q[..i]);
      }
    }
  }

  /** A child that is a directory on both sides is cleaned below. */
  lemma CleanedShared(s: Tree, was: Tree, now: Tree, c: Path, exact: bool)
    requires WellFormed(s) && c in s && CleanedBelow(s, was, now, c, exact)
    ensures CleanedFrom(s, was, now, c, exact)
  {
    StagedIsNotStale(s, c);
    forall q
      ensures if c <= q then CleanedAt(s, was, now, q, exact) else At(now, q) == At(was, q)
    {
      assert c <= q <==> q == c || c < q;
      assert if c < q then CleanedAt(s, was, now, q, exact) else At(now, q) == At(was, q);
    }
  }

  lemma CleanedAll(s: Tree, was: Tree, now: Tree, p: Path, done: set<Name>, exact: bool)
    requires WellFormed(was)
    requires forall n :: p + [n] in was ==> n in done
    requires CleanedSome(s, was, now, p, done, exact)
    ensures CleanedBelow(s, was, now, p, exact)
  {
    forall q
      ensures if p < q then CleanedAt(s, was, now, q, exact) else At(now, q) == At(was, q)
    {
      if p < q && q in was {
        ChildOnTheWay(was, p, q);
      }
      assert if p < q && q[|p|] in done then CleanedAt(s, was, now, q, exact) else At(now, q) == At(was, q);
    }
  }

  lemma CleanedKeepsOther(s: Tree, before: Tree, now: Tree, p: Path, n: Name, exact: bool)
    requires CleanedFrom(s, before, now, p + [n], exact) && IsDir(before, p)
    ensures IsDir(now, p)
  {
    assert !(p + [n] <= p);
    assert At(now, p) == At(before, p);
  }

  lemma NotCleanedYet(s: Tree, was: Tree, now: Tree, p: Path, done: set<Name>, n: Name, exact: bool)
    requires CleanedSome(s, was, now, p, done, exact) && n !in done
    ensures At(now, p + [n]) == At(was, p + [n])
  {
    var c := p + [n];
    assert c[|p|] == n;
    assert if p < c && c[|p|] in done then CleanedAt(s, was, now, c, exact) else At(now, c) == At(was, c);
  }

  method RemoveStaleEntry(s: Volume, d: Volume, c: Path, depth: nat) returns (ok: bool)
    requires s != d && c != [] && depth + 1 == |c| && depth <= MAX_WORKSPACE_DEPTH
    requires WellFormed(s.nodes) && WellFormed(d.nodes)
    requires IsDir(s.nodes, Parent(c)) && c in d.nodes
    modifies d`nodes
    ensures ok ==> WellFormed(d.nodes) && CleanedFrom(s.nodes, old(d.nodes), d.nodes, c, s.reliable)
    ensures s.reliable && d.reliable && WithinDepthBelow(s.nodes, c) ==> ok
    decreases MAX_WORKSPACE_DEPTH + 1 - depth, 0
  {
    var seen := s.Outcome();
    if c !in s.nodes || !seen {
      // any failure to stat the staged entry counts as its absence
      CleanedMissing(s.nodes, d.nodes, c, s.reliable);
      ok := RemoveExisting(d, c);
      return;
    }
    var again := s.Outcome();
    ok := d.Outcome();
    if !again || !ok { return false; }
    if s.nodes[c].Dir? && d.nodes[c].Dir? {
      ok := RemoveStale(s, d, c, depth + 1);
      if ok {
        CleanedShared(s.nodes, old(d.nodes), d.nodes, c, s.reliable);
      }
    } else {
      CleanedConflict(s.nodes, d.nodes, c, s.reliable);
    }
  }

  method RemoveStale(s: Volume, d: Volume, p: Path, depth: nat) returns (ok: bool)
    requires s != d && depth == |p|
    requires WellFormed(s.nodes) && WellFormed(d.nodes)
    requires IsDir(s.nodes, p) && IsDir(d.nodes, p)
    modifies d`nodes
    ensures ok ==> WellFormed(d.nodes) && CleanedBelow(s.nodes, old(d.nodes), d.nodes, p, s.reliable)
    ensures s.reliable && d.reliable && WithinDepthBelow(s.nodes, p) ==> ok
    decreases MAX_WORKSPACE_DEPTH + 1 - depth, 1
  {
    if depth > MAX_WORKSPACE_DEPTH { return false; }
    var names;
    ok, names := d.ReadDir(p);
    if !ok { return; }
    ghost var was := d.nodes;
    ghost var done: set<Name> := {};
    for i := 0 to |names|
      invariant WellFormed(d.nodes) && IsDir(d.nodes, p)
      invariant Taken(names, i, done)
      invariant CleanedSome(s.nodes, was, d.nodes, p, done, s.reliable)
    {
      ghost var before := d.nodes;
      var c := p + [names[i]];
      assert names[i] in names;
      assert Parent(c) == p;
      NotCleanedYet(s.nodes, was, before, p, done, names[i], s.reliable);
      if WithinDepthBelow(s.nodes, p) {
        ChildWithinDepth(s.nodes, p, names[i]);
      }
      ok := RemoveStaleEntry(s, d, c, depth);
      if !ok { return; }
      CleanedOneMore(s.nodes, was, before, d.nodes, p, done, names[i], s.reliable);
      CleanedKeepsOther(s.nodes, before, d.nodes, p, names[i], s.reliable);
      TakeNext(names, i, done);
      done := done + {names[i]};
    }
    AllTaken(names, done);
    CleanedAll(s.nodes, was, d.nodes, p, done, s.reliable);
  }

  // ---------- the two passes together ----------

  /** The tree without its special files. */
  function Plain(t: Tree): Tree {
    map q | q in t && !t[q].Special? :: t[q]
  }

  /** The sync-out left at `q` what it should; only what a special file shields may be gone for want of a stat. */
  ghost predicate SyncedAt(s: Tree, was: Tree, now: Tree, q: Path, exact: bool) {
    At(now, q) == Synced(s, was, q) || (!exact && Shielded(s, q) && At(now, q) == None)
  }

  ghost predicate SyncedTo(s: Tree, was: Tree, now: Tree, exact: bool) {
    forall q :: SyncedAt(s, was, now, q, exact)
  }

  /** A destination path that survives the cleanup and is not staged lies below a staged leaf. */
  lemma UnstagedAndFresh(s: Tree, q: Path)
    requires WellFormed(s) && q != [] && q !in s && !Stale(s, q)
    ensures Replaced(s, q) || Shielded(s, q)
  {
    assert q[..|q|] == q;
    var i := 1;
    while q[..i] in s
      invariant 1 <= i <= |q|
      invariant i == 1 || q[..i - 1] in s
      decreases |q| - i
    {
      i := i + 1;
    }
    assert Parent(q[..i]) == q[..i - 1];
    assert i > 1;
  }

  /** Cleaning and then copying mirrors the stage, except where special files are staged. */
  lemma CleanThenCopy(s: Tree, was: Tree, cleaned: Tree, now: Tree, exact: bool)
    requires WellFormed(s) && WellFormed(was)
    requires CleanedBelow(s, was, cleaned, [], exact) && CopiedBelow(s, cleaned, now, [])
    ensures SyncedTo(s, was, now, exact)
  {
    forall q
      ensures SyncedAt(s, was, now, q, exact)
    {
      assert [] < q <==> q != [];
      assert if [] < q then CleanedAt(s, was, cleaned, q, exact) else At(cleaned, q) == At(was, q);
      if q != [] && !(q in s && !s[q].Special?) {
        if q in s {
          StagedSpecial(s, q);
        } else if !Stale(s, q) {
          UnstagedAndFresh(s, q);
          if Replaced(s, q) {
            ReplacedIsNotShielded(s, q);
          }
        } else {
          StaleIsNotShielded(s, q);
        }
      }
    }
  }

  lemma StagedSpecial(s: Tree, q: Path)
    requires WellFormed(s) && q in s && s[q].Special?
    ensures Shielded(s, q) && !Stale(s, q) && !Replaced(s, q)
  {
    StagedIsNotStale(s, q);
    assert q[..|q|] == q;
    forall i | 0 < i < |q|
      ensures IsDir(s, q[..i])
    {
      PrefixIsDir(s, q, i);
    }
  }

  lemma ShorterAreDirs(s: Tree, q: Path, j: nat)
    requires WellFormed(s) && j <= |q| && q[..j] in s
    ensures forall i :: 0 < i < j ==> q[..i] in s && s[q[..i]].Dir?
  {
    forall i | 0 < i < j
      ensures q[..i] in s && s[q[..i]].Dir?
    {
      PrefixIsDir(s, q[..j], i);
      assert q[..j][..i] == q[..i];
    }
  }

  lemma ReplacedIsNotShielded(s: Tree, q: Path)
    requires WellFormed(s) && Replaced(s, q)
    ensures !Shielded(s, q)
  {
    var i :| 0 < i <= |q| && q[..i] in s && (s[q[..i]].File? || s[q[..i]].Link?);
    ShorterAreDirs(s, q, i);
    forall j | 0 < j <= |q| && q[..j] in s
      ensures !s[q[..j]].Special?
    {
      ShorterAreDirs(s, q, j);
    }
  }

  lemma StagedPrefixOfStale(s: Tree, q: Path, i: nat, j: nat)
    requires WellFormed(s) && 0 < i <= |q| && 0 < j <= |q|
    requires q[..i] !in s && IsDir(s, Parent(q[..i])) && q[..j] in s
    ensures s[q[..j]].Dir?
  {
    ShorterAreDirs(s, q, j);
    if j == i - 1 {
      assert Parent(q[..i]) == q[..j];
    } else {
      PrefixIsDir(s, Parent(q[..i]), j);
      assert Parent(q[..i])[..j] == q[..j];
    }
  }

  lemma StaleIsNotShielded(s: Tree, q: Path)
    requires WellFormed(s) && Stale(s, q)
    ensures !Shielded(s, q)
  {
    var i :| 0 < i <= |q| && q[..i] !in s && IsDir(s, Parent(q[..i]));
    forall j | 0 < j <= |q| && q[..j] in s
      ensures !s[q[..j]].Special?
    {
      StagedPrefixOfStale(s, q, i, j);
    }
  }

  /** Every staged special file is at the destination already, of the same kind and mode. */
  ghost predicate SpecialsInPlace(s: Tree, was: Tree) {
    forall p :: p in s && s[p].Special? ==> At(was, p) == Some(s[p])
  }

  lemma SyncedInPlace(s: Tree, was: Tree, q: Path)
    requires WellFormed(s) && WellFormed(was) && SpecialsInPlace(s, was)
    ensures Synced(s, was, q) == At(s, q)
  {
    assert q[..|q|] == q;
    if Shielded(s, q) {
      var i :| 0 < i <= |q| && q[..i] in s && s[q[..i]].Special?;
      assert At(was, q[..i]) == Some(s[q[..i]]);
      NothingBelow(was, q[..i]);
      NothingBelow(s, q[..i]);
      assert i < |q| ==> q[..i] < q;
    }
  }

  /** Over a stage whose calls work, the mirror is exact precisely when every staged special file is already in place. */
  lemma MirrorIsExact(s: Tree, was: Tree, now: Tree)
    requires WellFormed(s) && WellFormed(was) && SyncedTo(s, was, now, true)
    ensures now == s <==> SpecialsInPlace(s, was)
  {
    if SpecialsInPlace(s, was) {
      forall q
        ensures At(now, q) == At(s, q)
      {
        assert SyncedAt(s, was, now, q, true);
        SyncedInPlace(s, was, q);
      }
      SameAt(now, s);
    } else {
      var p :| p in s && s[p].Special? && At(was, p) != Some(s[p]);
      assert p[..|p|] == p;
      WellFormedNotRoot(s, p);
      assert SyncedAt(s, was, now, p, true);
      assert At(now, p) == Synced(s, was, p) == At(was, p);
      assert At(s, p) == Some(s[p]);
    }
  }

  ghost predicate NoSpecials(t: Tree) {
    forall p :: p in t ==> !t[p].Special?
  }

  /** Without special files the mirror is exact whatever failed to be seen: the copy restores it. */
  lemma PlainStageIsMirrored(s: Tree, was: Tree, now: Tree, exact: bool)
    requires WellFormed(s) && NoSpecials(s) && SyncedTo(s, was, now, exact)
    ensures now == s
  {
    forall q
      ensures At(now, q) == At(s, q)
    {
      assert SyncedAt(s, was, now, q, exact);
      assert !Shielded(s, q);
    }
    SameAt(now, s);
  }

  /** One that is in place can still be lost: a stat of it that fails removes it, and the copy skips it. */
  lemma UnseenSpecialIsLost(n: Name, kind: nat, mode: nat)
    ensures var s := map[[n] := Special(kind, mode)];
            WellFormed(s) && SpecialsInPlace(s, s) && SyncedTo(s, s, map[], false) && s != map[]
  {
    var s: Tree := map[[n] := Special(kind, mode)];
    assert Parent([n]) == [];
    forall q
      ensures SyncedAt(s, s, map[], q, false)
    {
      assert q in s <==> q == [n];
      assert q == [n] ==> q[..1] == q;
    }
    assert [n] in s;
  }

  /** Where each staged special file went unseen, the sync-out leaves the stage without them. */
  lemma AllSpecialsUnseen(s: Tree, was: Tree)
    requires WellFormed(s)
    ensures SyncedTo(s, was, Plain(s), false)
  {
    forall q
      ensures SyncedAt(s, was, Plain(s), q, false)
    {
      if q in s && s[q].Special? {
        StagedSpecial(s, q);
      }
    }
  }

  /** Over a stage whose calls may fail, every success mirrors it if and only if no special file is staged. */
  lemma UnreliableMirrorIsExact(s: Tree, was: Tree)
    requires WellFormed(s) && WellFormed(was)
    ensures (forall now :: SyncedTo(s, was, now, false) ==> now == s) <==> NoSpecials(s)
  {
    if NoSpecials(s) {
      forall now | SyncedTo(s, was, now, false) ensures now == s {
        PlainStageIsMirrored(s, was, now, false);
      }
    } else {
      AllSpecialsUnseen(s, was);
      var p :| p in s && s[p].Special?;
      assert p !in Plain(s);
    }
  }

  /** A staged special file that the destination lacks: the sync-out leaves it out. */
  lemma MissingSpecialIsNotMirrored(n: Name, kind: nat, mode: nat)
    ensures var s := map[[n] := Special(kind, mode)];
            WellFormed(s) && SyncedTo(s, map[], map[], true) && s != map[]
  {
    var s: Tree := map[[n] := Special(kind, mode)];
    assert Parent([n]) == [];
    forall q
      ensures SyncedAt(s, map[], map[], q, true)
    {
      assert q in s ==> q == [n] && s[q].Special?;
    }
    assert [n] in s;
  }

  /** One of another kind in its place: the destination keeps its own. */
  lemma OtherSpecialIsNotMirrored(n: Name, kind: nat, other: nat, mode: nat)
    requires kind != other
    ensures var s, was := map[[n] := Special(kind, mode)], map[[n] := Special(other, mode)];
            WellFormed(s) && WellFormed(was) && SyncedTo(s, was, was, true) && was != s
  {
    var s: Tree, was: Tree := map[[n] := Special(kind, mode)], map[[n] := Special(other, mode)];
    assert Parent([n]) == [];
    forall q
      ensures SyncedAt(s, was, was, q, true)
    {
      assert q in s <==> q == [n];
      assert q in was <==> q == [n];
      assert q == [n] ==> q[..1] == q;
    }
    assert s[[n]] != was[[n]];
  }

  method SyncOut(stage: Volume, dest: Volume, destinationAllowed: bool, stagingIsDir: bool) returns (ok: bool)
    requires stage != dest && WellFormed(stage.nodes) && WellFormed(dest.nodes)
    modifies dest`nodes
    ensures ok ==> WellFormed(dest.nodes) && SyncedTo(stage.nodes, old(dest.nodes), dest.nodes, stage.reliable)
    ensures ok ==> destinationAllowed && stagingIsDir && WithinDepth(stage.nodes)
    ensures stage.reliable && dest.reliable && destinationAllowed && stagingIsDir && WithinDepth(stage.nodes) ==> ok
    ensures ok && NoSpecials(stage.nodes) ==> dest.nodes == stage.nodes
    ensures ok && stage.reliable ==> (dest.nodes == stage.nodes <==> SpecialsInPlace(stage.nodes, old(dest.nodes)))
  {
    if !destinationAllowed || !stagingIsDir { return false; }
    assert WithinDepth(stage.nodes) <==> WithinDepthBelow(stage.nodes, []);
    ghost var was := dest.nodes;
    ok := RemoveStale(stage, dest, [], 0);
    if !ok { return; }
    ghost var cleaned := dest.nodes;
    ok := CopyChildren(stage, dest, [], 0);
    if !ok { return; }
    CleanThenCopy(stage.nodes, was, cleaned, dest.nodes, stage.reliable);
    if NoSpecials(stage.nodes) {
      PlainStageIsMirrored(stage.nodes, was, dest.nodes, stage.reliable);
    }
    if stage.reliable {
      MirrorIsExact(stage.nodes, was, dest.nodes);
    }
  }

  method CopyIn(host: Volume, stage: Volume, sourceAllowed: bool) returns (ok: bool)
    requires host != stage && WellFormed(host.nodes) && WellFormed(stage.nodes)
    modifies stage`nodes
    ensures ok ==> WellFormed(stage.nodes) && CopiedBelow(host.nodes, old(stage.nodes), stage.nodes, [])
    ensures ok ==> sourceAllowed && WithinDepth(host.nodes)
    ensures host.reliable && stage.reliable && sourceAllowed && WithinDepth(host.nodes) ==> ok
    ensures ok && old(stage.nodes) == map[] ==> stage.nodes == Plain(host.nodes)
  {
    if !sourceAllowed { return false; }
    assert WithinDepth(host.nodes) <==> WithinDepthBelow(host.nodes, []);
    ghost var was := stage.nodes;
    ok := CopyChildren(host, stage, [], 0);
    if ok && was == map[] {
      CopyIntoEmpty(host.nodes, stage.nodes);
    }
  }

  lemma CopyIntoEmpty(s: Tree, now: Tree)
    requires WellFormed(s) && CopiedBelow(s, map[], now, [])
    ensures now == Plain(s)
  {
    forall q
      ensures At(now, q) == At(Plain(s), q)
    {
      assert [] < q <==> q != [];
    }
    SameAt(now, Plain(s));
  }

  /** Dropping the special files keeps the tree well formed and loses no directory. */
  lemma PlainWellFormed(t: Tree)
    requires WellFormed(t)
    ensures WellFormed(Plain(t))
    ensures WithinDepth(Plain(t)) <==> WithinDepth(t)
    ensures Plain(Plain(t)) == Plain(t)
  {
    forall p | p in t && t[p].Dir?
      ensures p in Plain(t)
    {
    }
  }

  /** One whole copy-in/copy-out cycle over an untouched stage. */
  method RoundTrip(host: Volume, stage: Volume, allowed: bool) returns (ok: bool)
    requires host != stage && WellFormed(host.nodes) && stage.nodes == map[]
    modifies host`nodes, stage`nodes
    ensures ok ==> host.nodes == stage.nodes == Plain(old(host.nodes))
    ensures host.reliable && stage.reliable ==> (ok <==> allowed && WithinDepth(old(host.nodes)))
  {
    PlainWellFormed(host.nodes);
    ok := CopyIn(host, stage, allowed);
    if !ok { return; }
    ok := SyncOut(stage, host, allowed, true);
  }

  /** A second cycle changes nothing more. */
  method RoundTripTwice(host: Volume, first: Volume, second: Volume, allowed: bool) returns (ok: bool)
    requires host != first && host != second && first != second
    requires WellFormed(host.nodes) && first.nodes == second.nodes == map[]
    modifies host`nodes, first`nodes, second`nodes
    ensures ok ==> host.nodes == first.nodes == second.nodes == Plain(old(host.nodes))
    ensures host.reliable && first.reliable && second.reliable ==> (ok <==> allowed && WithinDepth(old(host.nodes)))
  {
    PlainWellFormed(host.nodes);
    ok := RoundTrip(host, first, allowed);
    if !ok { return; }
    ok := RoundTrip(host, second, allowed);
  }
}
