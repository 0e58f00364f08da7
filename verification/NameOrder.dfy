/** Byte-wise order of directory entries, and the one ascending listing of a set of them. */
module NameOrder {
  import opened FileTree
  import opened Lexicographic

  function ByteBelow(): (byte, byte) -> bool {
    (x, y) => x < y
  }

  predicate Precedes(a: Name, b: Name) {
    Less(ByteBelow(), a, b)
  }

  /** Byte by byte, as numbers; a name comes before its own continuations. */
  lemma PrecedesMeans(a: Name, b: Name)
    ensures Precedes(a, b) <==>
            exists k: nat :: k <= |a| && k < |b| && a[..k] == b[..k] && (k == |a| || a[k] < b[k])
  {
    LessMeans(ByteBelow(), a, b);
    forall k: nat
      ensures LowerAt(ByteBelow(), a, b, k) <==> k <= |a| && k < |b| && a[..k] == b[..k] && (k == |a| || a[k] < b[k])
    {
    }
  }

  ghost predicate Ascending(xs: seq<Name>) {
    forall i, j :: 0 <= i < j < |xs| ==> Precedes(xs[i], xs[j])
  }

  function Insert(n: Name, xs: seq<Name>): (r: seq<Name>)
    ensures forall m :: m in r <==> m == n || m in xs
  {
    if xs == [] then [n]
    else if Precedes(n, xs[0]) then [n] + xs
    else
      assert xs == [xs[0]] + xs[1..];
      [xs[0]] + Insert(n, xs[1..])
  }

  lemma {:induction false} InsertAscends(n: Name, xs: seq<Name>)
    requires Ascending(xs) && n !in xs
    ensures Ascending(Insert(n, xs))
  {
    if xs != [] {
      if Precedes(n, xs[0]) {
        forall j | 0 < j < |xs|
          ensures Precedes(n, xs[j])
        {
          LessTransitive(ByteBelow(), n, xs[0], xs[j]);
        }
      } else {
        LessTotal(ByteBelow(), n, xs[0]);
        InsertAscends(n, xs[1..]);
        var r := Insert(n, xs[1..]);
        forall j | 0 <= j < |r|
          ensures Precedes(xs[0], r[j])
        {
          assert r[j] in r;
          if r[j] != n {
            var k :| 0 <= k < |xs[1..]| && xs[1..][k] == r[j];
          }
        }
      }
    }
  }

  /** Insertion sort. */
  function Sort(xs: seq<Name>): (r: seq<Name>)
    ensures forall m :: m in r <==> m in xs
  {
    if xs == [] then []
    else
      assert xs == [xs[0]] + xs[1..];
      Insert(xs[0], Sort(xs[1..]))
  }

  lemma {:induction false} SortAscends(xs: seq<Name>)
    requires forall i, j :: 0 <= i < j < |xs| ==> xs[i] != xs[j]
    ensures Ascending(Sort(xs))
  {
    if xs != [] {
      SortAscends(xs[1..]);
      InsertAscends(xs[0], Sort(xs[1..]));
    }
  }

  /** The names of a set in ascending order. */
  ghost function SortedNames(s: set<Name>): (r: seq<Name>)
    ensures Ascending(r)
    ensures forall m :: m in r <==> m in s
  {
    if s == {} then []
    else
      var n :| n in s;
      InsertAscends(n, SortedNames(s - {n}));
      Insert(n, SortedNames(s - {n}))
  }

  /** There is only one ascending listing, so the order a directory is read in does not matter. */
  lemma {:induction false} AscendingUnique(xs: seq<Name>, ys: seq<Name>)
    requires Ascending(xs) && Ascending(ys)
    requires forall m :: m in xs <==> m in ys
    ensures xs == ys
  {
    assert xs == [] || xs[0] in ys;
    assert ys == [] || ys[0] in xs;
    if xs != [] && ys != [] {
      SameHead(xs, ys);
      forall m
        ensures m in xs[1..] <==> m in ys[1..]
      {
        TailMembers(xs, m);
        TailMembers(ys, m);
      }
      AscendingUnique(xs[1..], ys[1..]);
      assert xs == [xs[0]] + xs[1..] && ys == [ys[0]] + ys[1..];
    }
  }

  lemma SameHead(xs: seq<Name>, ys: seq<Name>)
    requires Ascending(xs) && Ascending(ys) && xs != [] && ys != []
    requires forall m :: m in xs <==> m in ys
    ensures xs[0] == ys[0]
  {
    assert xs[0] in ys && ys[0] in xs;
    var i :| 0 <= i < |ys| && ys[i] == xs[0];
    var j :| 0 <= j < |xs| && xs[j] == ys[0];
    if i > 0 && j > 0 {
      LessTransitive(ByteBelow(), xs[0], ys[0], xs[0]);
      LessIrreflexive(ByteBelow(), xs[0]);
    }
  }

  lemma TailMembers(xs: seq<Name>, m: Name)
    requires Ascending(xs) && xs != []
    ensures m in xs[1..] <==> m in xs && m != xs[0]
  {
    if m in xs[1..] {
      var k :| 0 < k < |xs| && xs[k] == m;
      LessIrreflexive(ByteBelow(), m);
    }
  }
}
