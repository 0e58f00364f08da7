/**
 The agent context: a source directory is copied into the container, and an
 independently written scan attests that source and copy hold the same files.
 Which names are withheld (version control data, credentials, build output) is
 a parameter of both traversals.
 */
module ContextCopy {
  import opened Common
  import opened FileTree
  import opened Hashing
  import opened PathText

  const MAX_RECURSION_DEPTH := 128

  type Exclusion = Name -> bool
  type Manifest = map<Path, seq<byte>>

  /** No component of the path is withheld. */
  predicate Shown(excluded: Exclusion, q: Path) {
    forall i :: 0 <= i < |q| ==> !excluded(q[i])
  }

  // ---------- copying ----------

  /**
   What the copy leaves at `q`, given what the destination held before: shown files with
   their content and mode, shown directories where there was none, and the rest as it was.
   Links and special files of the source are skipped.
   */
  function Imported(newMode: nat, excluded: Exclusion, s: Tree, d: Tree, q: Path): Option<Entry> {
    if q !in s || !Shown(excluded, q) then At(d, q)
    else match s[q]
      case File(_, _) => Some(s[q])
      case Dir(_) => if q in d then At(d, q) else Some(Dir(newMode))
      case Link(_) => At(d, q)
      case Special(_, _) => At(d, q)
  }

  ghost predicate ImportedBelow(newMode: nat, excluded: Exclusion, s: Tree, was: Tree, now: Tree, p: Path) {
    forall q :: At(now, q) == if p < q then Imported(newMode, excluded, s, was, q) else At(was, q)
  }

  ghost predicate ImportedFrom(newMode: nat, excluded: Exclusion, s: Tree, was: Tree, now: Tree, p: Path) {
    forall q :: At(now, q) == if p <= q then Imported(newMode, excluded, s, was, q) else At(was, q)
  }

  ghost predicate ImportedSome(newMode: nat, excluded: Exclusion, s: Tree, was: Tree, now: Tree, p: Path, done: set<Name>) {
    forall q :: At(now, q) == if p < q && q[|p|] in done then Imported(newMode, excluded, s, was, q) else At(was, q)
  }

  /** A shown source entry can be put where the destination holds `there`. */
  predicate FitsOver(e: Entry, there: Option<Entry>) {
    match e
    case File(_, _) => there.None? || there.value.File?
    case Dir(_) => there.None? || there.value.Dir?
    case Link(_) => true
    case Special(_, _) => true
  }

  ghost predicate FitsAt(excluded: Exclusion, s: Tree, d: Tree, q: Path) {
    q in s && Shown(excluded, q) ==> FitsOver(s[q], At(d, q)) && (s[q].Dir? ==> |q| <= 128)
  }

  /** No shown source entry at or below `p` clashes with the destination or is nested too deep. */
  ghost predicate FitsBelow(excluded: Exclusion, s: Tree, d: Tree, p: Path) {
    forall q :: p <= q ==> FitsAt(excluded, s, d, q)
  }

  /** Writing `e` there would follow a link, or go to a device: the result is not in the destination tree. */
  predicate Diverts(e: Entry, there: Option<Entry>) {
    match e
    case File(_, _) => there.Some? && (there.value.Link? || there.value.Special?)
    case Dir(_) => there.Some? && there.value.Link?
    case Link(_) => false
    case Special(_, _) => false
  }

  ghost predicate DivertsAt(excluded: Exclusion, s: Tree, d: Tree, q: Path) {
    q in s && Shown(excluded, q) && Diverts(s[q], At(d, q))
  }

  /** A shown entry is nested too deep, or in the way of one of another kind. */
  ghost predicate ClashesAt(excluded: Exclusion, s: Tree, d: Tree, q: Path) {
    q in s && !DivertsAt(excluded, s, d, q) && !FitsAt(excluded, s, d, q)
  }

  /** What happens where the destination holds something: a table. */
  lemma FitsOrDiverts(e: Entry, there: Entry)
    ensures FitsOver(e, None) && !Diverts(e, None)
    ensures FitsOver(e, Some(there)) <==> (e.File? && there.File?) || (e.Dir? && there.Dir?) || e.Link? || e.Special?
    ensures Diverts(e, Some(there)) <==> (e.File? && (there.Link? || there.Special?)) || (e.Dir? && there.Link?)
  {
  }

  /** Nothing is promised of the destination once a write has been diverted. */
  datatype Copying = Done | Failed | Diverted

  /** Depth check, then the entries of a directory that are not withheld. */
  method FilteredEntries(v: Volume, excluded: Exclusion, p: Path, depth: nat) returns (ok: bool, names: seq<Name>)
    requires IsDir(v.nodes, p)
    ensures ok ==> depth <= MAX_RECURSION_DEPTH
    ensures v.reliable && depth <= MAX_RECURSION_DEPTH ==> ok
    ensures ok ==> forall n {:trigger n in names} :: n in names ==> p + [n] in v.nodes && !excluded(n)
    ensures ok ==> forall n {:trigger p + [n]} :: p + [n] in v.nodes && !excluded(n) ==> n in names
    ensures ok ==> forall i, j :: 0 <= i < j < |names| ==> names[i] != names[j]
  {
    names := [];
    if depth > MAX_RECURSION_DEPTH { return false, names; }
    var all;
    ok, all := v.ReadDir(p);
    for i := 0 to |all|
      invariant forall n :: n in names <==> n in all[..i] && !excluded(n)
      invariant forall i, j :: 0 <= i < j < |names| ==> names[i] != names[j]
    {
      if !excluded(all[i]) {
        names := names + [all[i]];
      }
    }
    assert all[..|all|] == all;
  }

  lemma ShownChild(excluded: Exclusion, p: Path, n: Name)
    requires Shown(excluded, p) && !excluded(n)
    ensures Shown(excluded, p + [n])
  {
  }

  method CopyRecursive(src: Volume, dst: Volume, excluded: Exclusion, p: Path, depth: nat) returns (r: Copying)
    requires src != dst && depth == |p| && Shown(excluded, p)
    requires WellFormed(src.nodes) && WellFormed(dst.nodes)
    requires IsDir(src.nodes, p) && IsDir(dst.nodes, p)
    modifies dst`nodes
    ensures r.Done? ==> WellFormed(dst.nodes) && ImportedBelow(dst.freshMode, excluded, src.nodes, old(dst.nodes), dst.nodes, p)
    ensures r.Done? ==> FitsBelow(excluded, src.nodes, old(dst.nodes), p)
    ensures src.reliable && dst.reliable && FitsBelow(excluded, src.nodes, old(dst.nodes), p) ==> r.Done?
    ensures r.Diverted? ==> exists q :: p <= q && DivertsAt(excluded, src.nodes, old(dst.nodes), q)
    ensures src.reliable && dst.reliable && r.Failed? ==> exists q :: p <= q && ClashesAt(excluded, src.nodes, old(dst.nodes), q)
    decreases MAX_RECURSION_DEPTH + 1 - depth, 2
  {
    if p != [] && FitsBelow(excluded, src.nodes, dst.nodes, p) {
      assert FitsAt(excluded, src.nodes, dst.nodes, p);
    }
    var ok, names := FilteredEntries(src, excluded, p, depth);
    if !ok {
      if src.reliable && p != [] {
        assert ClashesAt(excluded, src.nodes, dst.nodes, p);
      }
      return Failed;
    }
    forall k | 0 <= k < |names| ensures p + [names[k]] in src.nodes && !excluded(names[k]) {
      assert names[k] in names;
    }
    ghost var done;
    r, done := CopyListed(src, dst, excluded, p, names, depth);
    if r.Done? {
      AllTaken(names, done);
      ImportedAll(dst.freshMode, excluded, src.nodes, old(dst.nodes), dst.nodes, p, done);
      DirFits(excluded, src.nodes, old(dst.nodes), p, done);
    }
  }

  /** The loop over the listed entries. */
  method CopyListed(src: Volume, dst: Volume, excluded: Exclusion, p: Path, names: seq<Name>, depth: nat)
    returns (r: Copying, ghost done: set<Name>)
    requires src != dst && depth == |p| && depth <= MAX_RECURSION_DEPTH && Shown(excluded, p)
    requires WellFormed(src.nodes) && WellFormed(dst.nodes) && IsDir(dst.nodes, p)
    requires forall k :: 0 <= k < |names| ==> p + [names[k]] in src.nodes && !excluded(names[k])
    requires forall k, l :: 0 <= k < l < |names| ==> names[k] != names[l]
    modifies dst`nodes
    ensures r.Done? ==> WellFormed(dst.nodes) && ImportedSome(dst.freshMode, excluded, src.nodes, old(dst.nodes), dst.nodes, p, done)
    ensures r.Done? ==> Taken(names, |names|, done)
    ensures r.Done? ==> forall n :: n in done ==> FitsBelow(excluded, src.nodes, old(dst.nodes), p + [n])
    ensures src.reliable && dst.reliable && FitsBelow(excluded, src.nodes, old(dst.nodes), p) ==> r.Done?
    ensures r.Diverted? ==> exists q :: p <= q && DivertsAt(excluded, src.nodes, old(dst.nodes), q)
    ensures src.reliable && dst.reliable && r.Failed? ==> exists q :: p <= q && ClashesAt(excluded, src.nodes, old(dst.nodes), q)
    decreases MAX_RECURSION_DEPTH + 1 - depth, 1
  {
    ghost var was := dst.nodes;
    done := {};
    r := Done;
    for i := 0 to |names|
      invariant r.Done? && WellFormed(dst.nodes) && IsDir(dst.nodes, p)
      invariant Taken(names, i, done)
      invariant ImportedSome(dst.freshMode, excluded, src.nodes, was, dst.nodes, p, done)
      invariant forall n :: n in done ==> FitsBelow(excluded, src.nodes, was, p + [n])
    {
      ghost var before := dst.nodes;
      var c := p + [names[i]];
      assert Parent(c) == p;
      ShownChild(excluded, p, names[i]);
      NotImportedYet(dst.freshMode, excluded, src.nodes, was, before, p, done, names[i]);
      if FitsBelow(excluded, src.nodes, was, p) {
        ChildFits(excluded, src.nodes, was, p, names[i]);
      }
      r := CopyOne(src, dst, excluded, c, depth);
      if !r.Done? {
        if r.Diverted? {
          DivertedBefore(dst.freshMode, excluded, src.nodes, was, before, p, done, names[i]);
        } else if src.reliable && dst.reliable {
          ClashedBefore(dst.freshMode, excluded, src.nodes, was, before, p, done, names[i]);
        }
        return;
      }
      ImportedOneMore(dst.freshMode, excluded, src.nodes, was, before, dst.nodes, p, done, names[i]);
      ImportedKeepsParent(dst.freshMode, excluded, src.nodes, before, dst.nodes, p, names[i]);
      TakeNext(names, i, done);
      done := done + {names[i]};
    }
  }

  method CopyOne(src: Volume, dst: Volume, excluded: Exclusion, c: Path, depth: nat) returns (r: Copying)
    requires src != dst && c != [] && depth + 1 == |c| && depth <= MAX_RECURSION_DEPTH && Shown(excluded, c)
    requires WellFormed(src.nodes) && WellFormed(dst.nodes)
    requires c in src.nodes && IsDir(dst.nodes, Parent(c))
    modifies dst`nodes
    ensures r.Done? ==> WellFormed(dst.nodes) && ImportedFrom(dst.freshMode, excluded, src.nodes, old(dst.nodes), dst.nodes, c)
    ensures r.Done? ==> FitsBelow(excluded, src.nodes, old(dst.nodes), c)
    ensures src.reliable && dst.reliable && FitsBelow(excluded, src.nodes, old(dst.nodes), c) ==> r.Done?
    ensures r.Diverted? ==> exists q :: c <= q && DivertsAt(excluded, src.nodes, old(dst.nodes), q)
    ensures src.reliable && dst.reliable && r.Failed? ==> exists q :: c <= q && ClashesAt(excluded, src.nodes, old(dst.nodes), q)
    decreases MAX_RECURSION_DEPTH + 1 - depth, 0
  {
    ghost var was := dst.nodes;
    var e := src.nodes[c];
    assert FitsBelow(excluded, src.nodes, was, c) ==> FitsAt(excluded, src.nodes, was, c);
    if Diverts(e, At(dst.nodes, c)) {
      assert DivertsAt(excluded, src.nodes, was, c);
      dst.nodes := *;
      return Diverted;
    }
    if !FitsOver(e, At(dst.nodes, c)) {
      assert ClashesAt(excluded, src.nodes, was, c);
      return Failed;
    }
    match e {
      case Dir(_) =>
        var ok := true;
        if c !in dst.nodes {
          NothingBelow(dst.nodes, c);
          ok := dst.Put(c, Dir(dst.freshMode));
        }
        if !ok { return Failed; }
        ghost var made := dst.nodes;
        MadeFits(dst.freshMode, excluded, src.nodes, was, made, c);
        r := CopyRecursive(src, dst, excluded, c, depth + 1);
        if r.Done? {
          ImportedDir(dst.freshMode, excluded, src.nodes, was, made, dst.nodes, c);
        }
      case File(_, _) =>
        NothingBelow(dst.nodes, c);
        ImportedLeaf(dst.freshMode, excluded, src.nodes, was, c);
        var ok := dst.Put(c, e);
        r := if ok then Done else Failed;
      case Link(_) =>
        ImportedLeaf(dst.freshMode, excluded, src.nodes, was, c);
        r := Done;
      case Special(_, _) =>
        ImportedLeaf(dst.freshMode, excluded, src.nodes, was, c);
        r := Done;
    }
  }

  /** What has not been copied yet is as it was. */
  lemma NotImportedYet(newMode: nat, excluded: Exclusion, s: Tree, was: Tree, now: Tree, p: Path, done: set<Name>, n: Name)
    requires ImportedSome(newMode, excluded, s, was, now, p, done) && n !in done
    ensures forall q :: p + [n] <= q ==> At(now, q) == At(was, q)
    ensures FitsBelow(excluded, s, now, p + [n]) <==> FitsBelow(excluded, s, was, p + [n])
  {
    forall q | p + [n] <= q
      ensures At(now, q) == At(was, q)
      ensures FitsAt(excluded, s, now, q) <==> FitsAt(excluded, s, was, q)
    {
      assert p < q && q[|p|] == n;
    }
  }

  lemma DivertedBefore(newMode: nat, excluded: Exclusion, s: Tree, was: Tree, before: Tree, p: Path, done: set<Name>, n: Name)
    requires ImportedSome(newMode, excluded, s, was, before, p, done) && n !in done
    requires exists q :: p + [n] <= q && DivertsAt(excluded, s, before, q)
    ensures exists q :: p <= q && DivertsAt(excluded, s, was, q)
  {
    NotImportedYet(newMode, excluded, s, was, before, p, done, n);
    var q :| p + [n] <= q && DivertsAt(excluded, s, before, q);
    assert p <= q && DivertsAt(excluded, s, was, q);
  }

  lemma ClashedBefore(newMode: nat, excluded: Exclusion, s: Tree, was: Tree, before: Tree, p: Path, done: set<Name>, n: Name)
    requires ImportedSome(newMode, excluded, s, was, before, p, done) && n !in done
    requires exists q :: p + [n] <= q && ClashesAt(excluded, s, before, q)
    ensures exists q :: p <= q && ClashesAt(excluded, s, was, q)
  {
    NotImportedYet(newMode, excluded, s, was, before, p, done, n);
    var q :| p + [n] <= q && ClashesAt(excluded, s, before, q);
    assert p <= q && ClashesAt(excluded, s, was, q);
  }

  lemma ImportedKeepsParent(newMode: nat, excluded: Exclusion, s: Tree, before: Tree, now: Tree, p: Path, n: Name)
    requires ImportedFrom(newMode, excluded, s, before, now, p + [n]) && IsDir(before, p)
    ensures IsDir(now, p)
  {
    assert At(now, p) == At(before, p);
  }

  lemma ImportedOneMore(newMode: nat, excluded: Exclusion, s: Tree, was: Tree, before: Tree, now: Tree, p: Path, done: set<Name>, n: Name)
    requires n !in done
    requires ImportedSome(newMode, excluded, s, was, before, p, done)
    requires ImportedFrom(newMode, excluded, s, before, now, p + [n])
    ensures ImportedSome(newMode, excluded, s, was, now, p, done + {n})
  {
    forall q
      ensures At(now, q) == if p < q && q[|p|] in done + {n} then Imported(newMode, excluded, s, was, q) else At(was, q)
    {
      assert p + [n] <= q <==> p < q && q[|p|] == n;
      assert At(before, q) == if p < q && q[|p|] in done then Imported(newMode, excluded, s, was, q) else At(was, q);
    }
  }

  lemma ImportedAll(newMode: nat, excluded: Exclusion, s: Tree, was: Tree, now: Tree, p: Path, done: set<Name>)
    requires WellFormed(s)
    requires forall n {:trigger p + [n]} :: p + [n] in s && !excluded(n) ==> n in done
    requires ImportedSome(newMode, excluded, s, was, now, p, done)
    ensures ImportedBelow(newMode, excluded, s, was, now, p)
  {
    forall q
      ensures At(now, q) == if p < q then Imported(newMode, excluded, s, was, q) else At(was, q)
    {
      if p < q && q in s && Shown(excluded, q) {
        ChildOnTheWay(s, p, q);
      }
    }
  }

  /** Making a missing directory changes neither what fits nor what is diverted. */
  lemma MadeFits(newMode: nat, excluded: Exclusion, s: Tree, was: Tree, made: Tree, c: Path)
    requires c in s && s[c].Dir?
    requires made == if c in was then was else was[c := Dir(newMode)]
    requires c in was ==> was[c].Dir?
    ensures FitsBelow(excluded, s, made, c) <==> FitsBelow(excluded, s, was, c)
    ensures forall q :: DivertsAt(excluded, s, made, q) ==> DivertsAt(excluded, s, was, q)
    ensures forall q :: ClashesAt(excluded, s, made, q) ==> ClashesAt(excluded, s, was, q)
  {
    forall q
      ensures FitsAt(excluded, s, made, q) <==> FitsAt(excluded, s, was, q)
      ensures DivertsAt(excluded, s, made, q) <==> DivertsAt(excluded, s, was, q)
    {
      assert q != c ==> At(made, q) == At(was, q);
    }
  }

  lemma ImportedDir(newMode: nat, excluded: Exclusion, s: Tree, was: Tree, made: Tree, now: Tree, c: Path)
    requires c in s && s[c].Dir? && Shown(excluded, c)
    requires made == if c in was then was else was[c := Dir(newMode)]
    requires ImportedBelow(newMode, excluded, s, made, now, c)
    ensures ImportedFrom(newMode, excluded, s, was, now, c)
  {
    forall q
      ensures At(now, q) == if c <= q then Imported(newMode, excluded, s, was, q) else At(was, q)
    {
      assert c <= q <==> q == c || c < q;
      assert q != c ==> At(made, q) == At(was, q);
    }
  }

  lemma ImportedLeaf(newMode: nat, excluded: Exclusion, s: Tree, was: Tree, c: Path)
    requires WellFormed(s) && c in s && !s[c].Dir? && Shown(excluded, c) && FitsOver(s[c], At(was, c))
    ensures s[c].File? ==> ImportedFrom(newMode, excluded, s, was, was[c := s[c]], c)
    ensures !s[c].File? ==> ImportedFrom(newMode, excluded, s, was, was, c)
    ensures FitsBelow(excluded, s, was, c)
  {
    NothingBelow(s, c);
    forall q
      ensures c <= q && q in s ==> q == c
    {
      assert c <= q ==> q == c || c < q;
    }
  }

  lemma ChildFits(excluded: Exclusion, s: Tree, d: Tree, p: Path, n: Name)
    requires FitsBelow(excluded, s, d, p)
    ensures FitsBelow(excluded, s, d, p + [n])
  {
    forall q | p + [n] <= q
      ensures FitsAt(excluded, s, d, q)
    {
      assert p <= q;
    }
  }

  lemma DirFits(excluded: Exclusion, s: Tree, d: Tree, p: Path, names: set<Name>)
    requires WellFormed(s) && IsDir(s, p) && IsDir(d, p) && |p| <= MAX_RECURSION_DEPTH
    requires forall n {:trigger p + [n]} :: p + [n] in s && !excluded(n) ==> n in names
    requires forall n :: n in names ==> FitsBelow(excluded, s, d, p + [n])
    ensures FitsBelow(excluded, s, d, p)
  {
    forall q | p <= q
      ensures FitsAt(excluded, s, d, q)
    {
      assert q == p || p < q;
      if q in s && Shown(excluded, q) && p < q {
        ChildOnTheWay(s, p, q);
        assert FitsBelow(excluded, s, d, p + [q[|p|]]);
      }
    }
  }

  /** The whole destination after a copy. */
  ghost predicate IsImport(newMode: nat, excluded: Exclusion, s: Tree, was: Tree, now: Tree) {
    forall q :: At(now, q) == Imported(newMode, excluded, s, was, q)
  }

  /** Copies a source directory over a destination, which may hold entries already. */
  method Populate(src: Volume, dst: Volume, excluded: Exclusion, sourceIsDir: bool) returns (r: Copying)
    requires src != dst && WellFormed(src.nodes) && WellFormed(dst.nodes)
    modifies dst`nodes
    ensures r.Done? ==> WellFormed(dst.nodes) && IsImport(dst.freshMode, excluded, src.nodes, old(dst.nodes), dst.nodes)
    ensures r.Done? ==> sourceIsDir && FitsBelow(excluded, src.nodes, old(dst.nodes), [])
    ensures src.reliable && dst.reliable && sourceIsDir && FitsBelow(excluded, src.nodes, old(dst.nodes), []) ==> r.Done?
    ensures r.Diverted? ==> exists q :: DivertsAt(excluded, src.nodes, old(dst.nodes), q)
    ensures src.reliable && dst.reliable && r.Failed? ==>
              !sourceIsDir || exists q :: ClashesAt(excluded, src.nodes, old(dst.nodes), q)
  {
    if !sourceIsDir { return Failed; }
    r := CopyRecursive(src, dst, excluded, [], 0);
    if r.Done? {
      forall q
        ensures At(dst.nodes, q) == Imported(dst.freshMode, excluded, src.nodes, old(dst.nodes), q)
      {
        assert [] < q <==> q != [];
      }
    }
  }

  // ---------- bind-mount preflight ----------

  /** Every shown entry at or below `p` is a regular file or a directory within reach. */
  ghost predicate Mountable(excluded: Exclusion, s: Tree, p: Path) {
    forall q :: q in s && p <= q && Shown(excluded, q) ==> s[q].File? || (s[q].Dir? && |q| <= 128)
  }

  method ValidateRecursive(v: Volume, excluded: Exclusion, p: Path, depth: nat) returns (ok: bool)
    requires depth == |p| && Shown(excluded, p)
    requires WellFormed(v.nodes) && IsDir(v.nodes, p)
    ensures ok ==> Mountable(excluded, v.nodes, p)
    ensures v.reliable && Mountable(excluded, v.nodes, p) ==> ok
    decreases MAX_RECURSION_DEPTH + 1 - depth, 1
  {
    var names;
    ok, names := FilteredEntries(v, excluded, p, depth);
    if !ok { return; }
    for i := 0 to |names|
      invariant forall k :: 0 <= k < i ==> Mountable(excluded, v.nodes, p + [names[k]])
    {
      assert names[i] in names;
      if Mountable(excluded, v.nodes, p) {
        ChildMountable(excluded, v.nodes, p, names[i]);
      }
      ok := ValidateEntry(v, excluded, p + [names[i]], depth);
      if !ok { return; }
    }
    AllChildrenMountable(excluded, v.nodes, p, names);
  }

  method ValidateEntry(v: Volume, excluded: Exclusion, c: Path, depth: nat) returns (ok: bool)
    requires c != [] && depth + 1 == |c| && depth <= MAX_RECURSION_DEPTH && Shown(excluded, c)
    requires WellFormed(v.nodes) && c in v.nodes
    ensures ok ==> Mountable(excluded, v.nodes, c)
    ensures v.reliable && Mountable(excluded, v.nodes, c) ==> ok
    decreases MAX_RECURSION_DEPTH + 1 - depth, 0
  {
    match v.nodes[c] {
      case Link(_) =>
        ok := false;
      case Special(_, _) =>
        ok := false;
      case Dir(_) =>
        ok := ValidateRecursive(v, excluded, c, depth + 1);
      case File(_, _) =>
        NothingBelow(v.nodes, c);
        assert forall q :: q in v.nodes ==> (c <= q ==> q == c || c < q);
        ok := true;
    }
  }

  lemma ChildMountable(excluded: Exclusion, s: Tree, p: Path, n: Name)
    requires Mountable(excluded, s, p)
    ensures Mountable(excluded, s, p + [n])
  {
    assert forall q :: q in s ==> (p + [n] <= q ==> p <= q);
  }

  lemma AllChildrenMountable(excluded: Exclusion, s: Tree, p: Path, names: seq<Name>)
    requires WellFormed(s) && IsDir(s, p) && |p| <= MAX_RECURSION_DEPTH
    requires forall n {:trigger p + [n]} :: p + [n] in s && !excluded(n) ==> n in names
    requires forall k :: 0 <= k < |names| ==> Mountable(excluded, s, p + [names[k]])
    ensures Mountable(excluded, s, p)
  {
    forall q | q in s && p <= q && Shown(excluded, q)
      ensures s[q].File? || (s[q].Dir? && |q| <= MAX_RECURSION_DEPTH)
    {
      assert q == p || p < q;
      if q == p {
        WellFormedNotRoot(s, q);
      } else {
        ChildOnTheWay(s, p, q);
        assert Mountable(excluded, s, p + [q[|p|]]);
      }
    }
  }

  /** A tree that passes the preflight can be copied, and the copy loses no shown entry. */
  lemma PreflightLosesNothing(newMode: nat, excluded: Exclusion, s: Tree)
    requires WellFormed(s) && Mountable(excluded, s, [])
    ensures FitsBelow(excluded, s, map[], [])
    ensures forall q :: q in s && Shown(excluded, q) ==> Imported(newMode, excluded, s, map[], q).Some?
  {
    forall q | q in s && Shown(excluded, q)
      ensures s[q].File? || s[q].Dir?
    {
      assert [] <= q;
    }
  }

  // ---------- attestation ----------

  predicate Listed(excluded: Exclusion, t: Tree, q: Path) {
    q in t && t[q].File? && Shown(excluded, q)
  }

  /** Every shown regular file with the digest of its content. */
  function ManifestOf(excluded: Exclusion, hash: HashFunction, t: Tree): Manifest {
    map q | q in t && Listed(excluded, t, q) :: hash(t[q].content)
  }

  function Digest(m: Manifest, q: Path): Option<seq<byte>> {
    if q in m then Some(m[q]) else None
  }

  ghost predicate NameableBelow(excluded: Exclusion, t: Tree, p: Path) {
    forall q :: q in t && p <= q && Listed(excluded, t, q) ==> ValidUtf8(Join(q))
  }

  ghost predicate ScannedBelow(excluded: Exclusion, hash: HashFunction, t: Tree, was: Manifest, now: Manifest, p: Path) {
    forall q :: Digest(now, q) == if p < q && Listed(excluded, t, q) then Some(hash(t[q].content)) else Digest(was, q)
  }

  ghost predicate ScannedFrom(excluded: Exclusion, hash: HashFunction, t: Tree, was: Manifest, now: Manifest, p: Path) {
    forall q :: Digest(now, q) == if p <= q && Listed(excluded, t, q) then Some(hash(t[q].content)) else Digest(was, q)
  }

  ghost predicate ScannedSome(excluded: Exclusion, hash: HashFunction, t: Tree, was: Manifest, now: Manifest, p: Path, done: set<Name>) {
    forall q :: Digest(now, q) ==
      if p < q && q[|p|] in done && Listed(excluded, t, q) then Some(hash(t[q].content)) else Digest(was, q)
  }

  /** The map a scan fills in as it goes. */
  class ManifestBuilder {
    var digests: Manifest

    constructor ()
      ensures digests == map[]
    {
      digests := map[];
    }
  }

  method ScanDir(v: Volume, excluded: Exclusion, hash: HashFunction, p: Path, m: ManifestBuilder) returns (ok: bool)
    requires Shown(excluded, p) && WellFormed(v.nodes) && IsDir(v.nodes, p)
    modifies m
    ensures ok ==> ScannedBelow(excluded, hash, v.nodes, old(m.digests), m.digests, p)
    ensures ok ==> NameableBelow(excluded, v.nodes, p)
    ensures v.reliable && NameableBelow(excluded, v.nodes, p) ==> ok
    decreases Below(v.nodes, p), 1
  {
    var names;
    ok, names := v.ReadDir(p);
    if !ok { return; }
    ghost var was := m.digests;
    ghost var done: set<Name> := {};
    for i := 0 to |names|
      invariant Taken(names, i, done)
      invariant ScannedSome(excluded, hash, v.nodes, was, m.digests, p, done)
      invariant forall n :: n in done ==> NameableBelow(excluded, v.nodes, p + [n])
    {
      ghost var before := m.digests;
      var c := p + [names[i]];
      assert names[i] in names;
      assert Parent(c) == p;
      BelowShrinks(v.nodes, p, names[i]);
      if NameableBelow(excluded, v.nodes, p) {
        ChildNameable(excluded, v.nodes, p, names[i]);
      }
      if excluded(names[i]) {
        ScannedHidden(excluded, hash, v.nodes, before, c);
      } else {
        ShownChild(excluded, p, names[i]);
        ok := ScanEntry(v, excluded, hash, c, m);
        if !ok { return; }
      }
      ScannedOneMore(excluded, hash, v.nodes, was, before, m.digests, p, done, names[i]);
      TakeNext(names, i, done);
      done := done + {names[i]};
    }
    AllTaken(names, done);
    ScannedAll(excluded, hash, v.nodes, was, m.digests, p, done);
    AllNameable(excluded, v.nodes, p, done);
  }

  method ScanEntry(v: Volume, excluded: Exclusion, hash: HashFunction, c: Path, m: ManifestBuilder) returns (ok: bool)
    requires c != [] && Shown(excluded, c) && WellFormed(v.nodes) && c in v.nodes
    modifies m
    ensures ok ==> ScannedFrom(excluded, hash, v.nodes, old(m.digests), m.digests, c)
    ensures ok ==> NameableBelow(excluded, v.nodes, c)
    ensures v.reliable && NameableBelow(excluded, v.nodes, c) ==> ok
    decreases Below(v.nodes, c), 2
  {
    ghost var was := m.digests;
    match v.nodes[c] {
      case Link(_) =>
        ScannedLeaf(excluded, hash, v.nodes, was, c);
        ok := true;
      case Dir(_) =>
        ok := ScanDir(v, excluded, hash, c, m);
        if ok {
          ScannedDir(excluded, hash, v.nodes, was, m.digests, c);
        }
      case File(content, _) =>
        ScannedLeaf(excluded, hash, v.nodes, was, c);
        if !ValidUtf8(Join(c)) { return false; }
        ok := v.Outcome();
        if !ok { return; }
        var hasher := new Hasher(hash);
        hasher.UpdateFromFile(content);
        var digest := hasher.Finalize();
        assert [] + content == content;
        m.digests := m.digests[c := digest];
      case Special(_, _) =>
        ScannedLeaf(excluded, hash, v.nodes, was, c);
        ok := true;
    }
  }

  lemma ChildNameable(excluded: Exclusion, t: Tree, p: Path, n: Name)
    requires NameableBelow(excluded, t, p)
    ensures NameableBelow(excluded, t, p + [n])
  {
    assert forall q :: q in t ==> (p + [n] <= q ==> p <= q);
  }

  /** A withheld name hides everything below it. */
  lemma ScannedHidden(excluded: Exclusion, hash: HashFunction, t: Tree, was: Manifest, c: Path)
    requires c != [] && excluded(c[|c| - 1])
    ensures ScannedFrom(excluded, hash, t, was, was, c)
    ensures NameableBelow(excluded, t, c)
  {
    forall q | c <= q
      ensures !Listed(excluded, t, q)
    {
      assert q[|c| - 1] == c[|c| - 1];
    }
  }

  lemma ScannedLeaf(excluded: Exclusion, hash: HashFunction, t: Tree, was: Manifest, c: Path)
    requires WellFormed(t) && c in t && !t[c].Dir? && Shown(excluded, c)
    ensures t[c].File? ==> ScannedFrom(excluded, hash, t, was, was[c := hash(t[c].content)], c)
    ensures !t[c].File? ==> ScannedFrom(excluded, hash, t, was, was, c)
    ensures NameableBelow(excluded, t, c) <==> (t[c].File? ==> ValidUtf8(Join(c)))
  {
    NothingBelow(t, c);
    forall q
      ensures c <= q && q in t ==> q == c
    {
      assert c <= q ==> q == c || c < q;
    }
    assert Listed(excluded, t, c) <==> t[c].File?;
  }

  lemma ScannedDir(excluded: Exclusion, hash: HashFunction, t: Tree, was: Manifest, now: Manifest, c: Path)
    requires c in t && t[c].Dir? && ScannedBelow(excluded, hash, t, was, now, c)
    ensures ScannedFrom(excluded, hash, t, was, now, c)
  {
    forall q
      ensures Digest(now, q) == if c <= q && Listed(excluded, t, q) then Some(hash(t[q].content)) else Digest(was, q)
    {
      assert c <= q <==> q == c || c < q;
    }
  }

  lemma ScannedOneMore(excluded: Exclusion, hash: HashFunction, t: Tree, was: Manifest, before: Manifest, now: Manifest,
                       p: Path, done: set<Name>, n: Name)
    requires n !in done
    requires ScannedSome(excluded, hash, t, was, before, p, done)
    requires ScannedFrom(excluded, hash, t, before, now, p + [n])
    ensures ScannedSome(excluded, hash, t, was, now, p, done + {n})
  {
    forall q
      ensures Digest(now, q) ==
        if p < q && q[|p|] in done + {n} && Listed(excluded, t, q) then Some(hash(t[q].content)) else Digest(was, q)
    {
      assert p + [n] <= q <==> p < q && q[|p|] == n;
      assert Digest(before, q) ==
        if p < q && q[|p|] in done && Listed(excluded, t, q) then Some(hash(t[q].content)) else Digest(was, q);
    }
  }

  lemma ScannedAll(excluded: Exclusion, hash: HashFunction, t: Tree, was: Manifest, now: Manifest, p: Path, done: set<Name>)
    requires WellFormed(t)
    requires forall n :: p + [n] in t ==> n in done
    requires ScannedSome(excluded, hash, t, was, now, p, done)
    ensures ScannedBelow(excluded, hash, t, was, now, p)
  {
    forall q
      ensures Digest(now, q) == if p < q && Listed(excluded, t, q) then Some(hash(t[q].content)) else Digest(was, q)
    {
      if p < q && q in t {
        ChildOnTheWay(t, p, q);
      }
    }
  }

  lemma AllNameable(excluded: Exclusion, t: Tree, p: Path, done: set<Name>)
    requires WellFormed(t) && IsDir(t, p)
    requires forall n :: p + [n] in t ==> n in done
    requires forall n :: n in done ==> NameableBelow(excluded, t, p + [n])
    ensures NameableBelow(excluded, t, p)
  {
    forall q | q in t && p <= q && Listed(excluded, t, q)
      ensures ValidUtf8(Join(q))
    {
      WellFormedNotRoot(t, q);
      assert q == p || p < q;
      ChildOnTheWay(t, p, q);
      assert NameableBelow(excluded, t, p + [q[|p|]]);
    }
  }

  method SnapshotContextDir(v: Volume, excluded: Exclusion, hash: HashFunction) returns (ok: bool, manifest: Manifest)
    requires WellFormed(v.nodes)
    ensures ok ==> manifest == ManifestOf(excluded, hash, v.nodes)
    ensures ok ==> NameableBelow(excluded, v.nodes, [])
    ensures v.reliable && NameableBelow(excluded, v.nodes, []) ==> ok
  {
    var m := new ManifestBuilder();
    ok := ScanDir(v, excluded, hash, [], m);
    manifest := m.digests;
    if ok {
      ScanFromScratch(excluded, hash, v.nodes, manifest);
    }
  }

  lemma ScanFromScratch(excluded: Exclusion, hash: HashFunction, t: Tree, now: Manifest)
    requires WellFormed(t) && ScannedBelow(excluded, hash, t, map[], now, [])
    ensures now == ManifestOf(excluded, hash, t)
  {
    var m := ManifestOf(excluded, hash, t);
    forall q
      ensures q in now <==> q in m
      ensures q in now && q in m ==> now[q] == m[q]
    {
      assert Digest(now, q) == if [] < q && Listed(excluded, t, q) then Some(hash(t[q].content)) else None;
      assert q != [] ==> [] < q;
    }
  }

  // ---------- comparison ----------

  datatype Comparison =
    | Same
    | Different(missing: seq<Path>, mismatched: seq<Path>, extra: seq<Path>)

  lemma DifferSomewhere(a: Manifest, b: Manifest)
    requires a != b
    ensures exists q :: Digest(a, q) != Digest(b, q)
  {
    if forall q :: Digest(a, q) == Digest(b, q) {
      assert forall q :: q in a ==> Digest(a, q) == Digest(b, q);
      assert forall q :: q in b ==> Digest(a, q) == Digest(b, q);
    }
  }

  /** Reports every path on which the manifests disagree, under the right heading. */
  method CompareManifests(expected: Manifest, actual: Manifest) returns (r: Comparison)
    ensures r.Same? <==> expected == actual
    ensures r.Different? ==>
      && (forall q :: q in r.missing <==> q in expected && q !in actual)
      && (forall q :: q in r.mismatched <==> q in expected && q in actual && expected[q] != actual[q])
      && (forall q :: q in r.extra <==> q in actual && q !in expected)
      && r.missing + r.mismatched + r.extra != []
  {
    if expected == actual { return Same; }
    var missing, mismatched, extra := [], [], [];
    var rest := expected.Keys;
    while rest != {}
      invariant rest <= expected.Keys
      invariant forall q :: q in missing <==> q in expected && q !in rest && q !in actual
      invariant forall q :: q in mismatched <==> q in expected && q !in rest && q in actual && expected[q] != actual[q]
      decreases rest
    {
      var q :| q in rest;
      rest := rest - {q};
      if q !in actual {
        missing := missing + [q];
      } else if expected[q] != actual[q] {
        mismatched := mismatched + [q];
      }
    }
    rest := actual.Keys;
    while rest != {}
      invariant rest <= actual.Keys
      invariant forall q :: q in extra <==> q in actual && q !in rest && q !in expected
      decreases rest
    {
      var q :| q in rest;
      rest := rest - {q};
      if q !in expected {
        extra := extra + [q];
      }
    }
    r := Different(missing, mismatched, extra);
    DifferSomewhere(expected, actual);
    ghost var q :| Digest(expected, q) != Digest(actual, q);
    assert q in missing + mismatched + extra;
  }

  method VerifyContextManifest(expected: Manifest, dst: Volume, excluded: Exclusion, hash: HashFunction) returns (ok: bool)
    requires WellFormed(dst.nodes)
    ensures ok ==> expected == ManifestOf(excluded, hash, dst.nodes)
    ensures dst.reliable && NameableBelow(excluded, dst.nodes, []) ==>
      (ok <==> expected == ManifestOf(excluded, hash, dst.nodes))
  {
    var actual;
    ok, actual := SnapshotContextDir(dst, excluded, hash);
    if !ok { return; }
    var r := CompareManifests(expected, actual);
    ok := r.Same?;
  }

  // ---------- the two traversals agree ----------

  /** The destination held no shown file of its own that the source lacks. */
  ghost predicate NothingElse(excluded: Exclusion, s: Tree, was: Tree) {
    forall q :: Listed(excluded, was, q) ==> Listed(excluded, s, q)
  }

  /** What a completed copy leaves: shown files as they are, shown directories, and all else untouched. */
  lemma ImportMeans(newMode: nat, excluded: Exclusion, s: Tree, was: Tree, now: Tree, q: Path)
    requires WellFormed(s) && FitsBelow(excluded, s, was, []) && IsImport(newMode, excluded, s, was, now)
    ensures Listed(excluded, s, q) ==> q in now && now[q] == s[q]
    ensures q in s && Shown(excluded, q) && s[q].Dir? ==>
              q in now && now[q] == if q in was then was[q] else Dir(newMode)
    ensures q in s && Shown(excluded, q) && s[q].Dir? ==> now[q].Dir?
    ensures q !in s || s[q].Link? || s[q].Special? || (exists n <- q :: excluded(n)) ==>
              (q in now <==> q in was) && (q in was ==> now[q] == was[q])
  {
    assert [] <= q;
    assert FitsAt(excluded, s, was, q);
    assert At(now, q) == Imported(newMode, excluded, s, was, q);
  }

  /** A completed copy lists the source's files with the source's contents, and what files were there before. */
  lemma ImportLists(newMode: nat, excluded: Exclusion, s: Tree, was: Tree, now: Tree, q: Path)
    requires WellFormed(s) && FitsBelow(excluded, s, was, []) && IsImport(newMode, excluded, s, was, now)
    ensures Listed(excluded, now, q) <==> Listed(excluded, s, q) || Listed(excluded, was, q)
    ensures Listed(excluded, s, q) ==> now[q] == s[q]
    ensures Listed(excluded, was, q) && !Listed(excluded, s, q) ==> now[q] == was[q]
  {
    assert [] <= q;
    assert FitsAt(excluded, s, was, q);
    assert At(now, q) == Imported(newMode, excluded, s, was, q);
  }

  /**
   A completed copy attests exactly like its source if and only if nothing else was there
   before, as in an empty destination; and its names are no harder to print.
   */
  lemma ImportAttestsAlike(newMode: nat, excluded: Exclusion, hash: HashFunction, s: Tree, was: Tree, now: Tree)
    requires WellFormed(s) && FitsBelow(excluded, s, was, []) && IsImport(newMode, excluded, s, was, now)
    ensures ManifestOf(excluded, hash, now) == ManifestOf(excluded, hash, s) <==> NothingElse(excluded, s, was)
    ensures NothingElse(excluded, s, was) ==> (NameableBelow(excluded, now, []) <==> NameableBelow(excluded, s, []))
  {
    var mine, theirs := ManifestOf(excluded, hash, now), ManifestOf(excluded, hash, s);
    forall q
      ensures q in mine <==> Listed(excluded, s, q) || Listed(excluded, was, q)
      ensures q in theirs <==> Listed(excluded, s, q)
      ensures Listed(excluded, s, q) ==> mine[q] == theirs[q]
    {
      ImportLists(newMode, excluded, s, was, now, q);
    }
    if !NothingElse(excluded, s, was) {
      var q :| Listed(excluded, was, q) && !Listed(excluded, s, q);
      assert q in mine && q !in theirs;
    } else {
      forall q ensures Listed(excluded, now, q) <==> Listed(excluded, s, q) {
        ImportLists(newMode, excluded, s, was, now, q);
      }
    }
  }

  /** A file that was there before shows up in the copy's manifest and not in the source's. */
  lemma LeftoverSplitsThem(newMode: nat, hash: HashFunction, n: Name, content: seq<byte>, mode: nat)
    ensures var excluded: Exclusion := _ => false;
            var was: Tree := map[[n] := File(content, mode)];
            && WellFormed(was) && FitsBelow(excluded, map[], was, [])
            && IsImport(newMode, excluded, map[], was, was)
            && ManifestOf(excluded, hash, was) != ManifestOf(excluded, hash, map[])
  {
    var excluded: Exclusion := _ => false;
    var was: Tree := map[[n] := File(content, mode)];
    assert Parent([n]) == [];
    assert Listed(excluded, was, [n]);
    assert [n] in ManifestOf(excluded, hash, was);
  }

  /** Equal manifests mean the same shown files with the same contents, unless a hash collision is at hand. */
  lemma EqualManifestsMeanEqualFiles(excluded: Exclusion, hash: HashFunction, a: Tree, b: Tree)
    requires ManifestOf(excluded, hash, a) == ManifestOf(excluded, hash, b)
    ensures forall q :: Listed(excluded, a, q) <==> Listed(excluded, b, q)
    ensures forall q :: Listed(excluded, a, q) && Listed(excluded, b, q) ==>
      a[q].content == b[q].content || Collides(hash, a[q].content, b[q].content)
  {
    var ma, mb := ManifestOf(excluded, hash, a), ManifestOf(excluded, hash, b);
    forall q
      ensures Listed(excluded, a, q) <==> Listed(excluded, b, q)
      ensures Listed(excluded, a, q) && Listed(excluded, b, q) ==> hash(a[q].content) == hash(b[q].content)
    {
      assert q in ma <==> Listed(excluded, a, q);
      assert q in mb <==> Listed(excluded, b, q);
    }
  }

  /** Snapshot the source, copy it, then verify the copy: what container setup does. */
  method ImportContext(src: Volume, dst: Volume, excluded: Exclusion, hash: HashFunction) returns (r: Copying)
    requires src != dst && WellFormed(src.nodes) && WellFormed(dst.nodes)
    modifies dst`nodes
    ensures r.Done? ==> IsImport(dst.freshMode, excluded, src.nodes, old(dst.nodes), dst.nodes) && NothingElse(excluded, src.nodes, old(dst.nodes))
    ensures src.reliable && dst.reliable ==>
      (r.Done? <==>
         && NameableBelow(excluded, src.nodes, [])
         && FitsBelow(excluded, src.nodes, old(dst.nodes), [])
         && NothingElse(excluded, src.nodes, old(dst.nodes)))
    ensures r.Diverted? ==> exists q :: DivertsAt(excluded, src.nodes, old(dst.nodes), q)
  {
    ghost var was := dst.nodes;
    var ok, expected := SnapshotContextDir(src, excluded, hash);
    if !ok { return Failed; }
    r := Populate(src, dst, excluded, true);
    if !r.Done? { return; }
    ImportAttestsAlike(dst.freshMode, excluded, hash, src.nodes, was, dst.nodes);
    ok := VerifyContextManifest(expected, dst, excluded, hash);
    if !ok { return Failed; }
  }

  /** Into an empty destination only the depth of the source matters. */
  lemma EmptyFits(excluded: Exclusion, s: Tree)
    ensures NothingElse(excluded, s, map[])
    ensures FitsBelow(excluded, s, map[], []) <==>
            forall q :: q in s && Shown(excluded, q) && s[q].Dir? ==> |q| <= 128
  {
    forall q | q in s && Shown(excluded, q)
      ensures FitsAt(excluded, s, map[], q) <==> (s[q].Dir? ==> |q| <= MAX_RECURSION_DEPTH)
    {
    }
    assert forall q: Path :: q in s ==> [] <= q;
  }
}
