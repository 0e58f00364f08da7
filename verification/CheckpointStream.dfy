/**
 The byte stream a checkpoint directory is authenticated by: every directory
 and regular file below the root, in sorted depth-first order, except the root
 entry that will hold the authentication code itself.
 */
module CheckpointStream {
  import opened FileTree
  import opened Hashing
  import opened NameOrder
  import opened PathText

  const TAG_DIR: byte := 68   // 'D'
  const TAG_FILE: byte := 70  // 'F'

  // "checkpoint.hmac"
  const HMAC_FILE: Name := [99, 104, 101, 99, 107, 112, 111, 105, 110, 116, 46, 104, 109, 97, 99]

  const U64_SIZE := 0x1_0000_0000_0000_0000

  // ---------- one entry ----------

  /** The `k` low-order bytes of a number, least significant first. */
  function LeBytes(n: nat, k: nat): (r: seq<byte>)
    ensures |r| == k
  {
    if k == 0 then [] else [(n % 256) as byte] + LeBytes(n / 256, k - 1)
  }

  function Power256(k: nat): (r: nat)
    ensures r > 0
  {
    if k == 0 then 1 else 256 * Power256(k - 1)
  }

  lemma {:induction false} LeBytesInjective(n: nat, m: nat, k: nat)
    requires n < Power256(k) && m < Power256(k) && LeBytes(n, k) == LeBytes(m, k)
    ensures n == m
    decreases k
  {
    if k > 0 {
      assert LeBytes(n, k)[0] == (n % 256) as byte && LeBytes(m, k)[0] == (m % 256) as byte;
      assert LeBytes(n, k)[1..] == LeBytes(n / 256, k - 1) && LeBytes(m, k)[1..] == LeBytes(m / 256, k - 1);
      LeBytesInjective(n / 256, m / 256, k - 1);
    }
  }

  /** Each byte is the digit of its weight, the lowest weight first. */
  lemma {:induction false} LeBytesMean(n: nat, k: nat, i: nat)
    requires i < k
    ensures LeBytes(n, k)[i] as nat == n / Power256(i) % 256
  {
    if i > 0 {
      LeBytesMean(n / 256, k - 1, i - 1);
      DivideTwice(n, Power256(i - 1));
    }
  }

  lemma DivideTwice(n: nat, p: nat)
    requires p > 0
    ensures n / 256 / p == n / (256 * p)
  {
    var q, r := n / 256 / p, n / 256 % p;
    assert n / 256 == p * q + r;
    var rest := 256 * r + n % 256;
    assert n == 256 * p * q + rest;
    assert 0 <= rest < 256 * p by {
      assert r + 1 <= p;
      assert 256 * (r + 1) <= 256 * p;
    }
    QuotientIs(n, 256 * p, q, rest);
  }

  lemma QuotientIs(n: int, m: int, q: int, r: int)
    requires m > 0 && n == m * q + r && 0 <= r < m
    ensures n / m == q
  {
    var d := n / m - q;
    assert m * d == r - n % m;
    assert d >= 1 ==> m * d >= m;
    assert d <= -1 ==> m * d <= -m;
  }

  function Le64(n: nat): (r: seq<byte>) {
    LeBytes(n, 8)
  }

  lemma Le64Injective(n: nat, m: nat)
    requires n < U64_SIZE && m < U64_SIZE && Le64(n) == Le64(m)
    ensures n == m
  {
    assert Power256(8) == U64_SIZE by {
      assert Power256(2) == 65536;
      assert Power256(4) == 65536 * 65536;
      assert Power256(6) == 65536 * 65536 * 65536;
    }
    LeBytesInjective(n, m, 8);
  }

  /** Files a checkpoint may hold: a length fits the field it is recorded in. */
  predicate Storable(e: Entry) {
    e.Dir? || (e.File? && |e.content| < U64_SIZE)
  }

  function Header(tag: byte, q: Path): seq<byte> {
    [tag, NUL] + Join(q) + [NUL]
  }

  function Tag(e: Entry): byte {
    if e.Dir? then TAG_DIR else TAG_FILE
  }

  function Payload(e: Entry): seq<byte> {
    if e.File? then Le64(|e.content|) + e.content else []
  }

  function Record(q: Path, e: Entry): seq<byte> {
    Header(Tag(e), q) + Payload(e)
  }

  /** Same kind, and same content for files; modes are not part of the stream. */
  predicate SameShape(a: Entry, b: Entry) {
    match a
    case Dir(_) => b.Dir?
    case File(content, _) => b.File? && b.content == content
    case _ => a == b
  }

  /** A header can be read back, whatever follows it. */
  lemma HeaderReadsBack(s: byte, p: Path, x: seq<byte>, t: byte, q: Path, y: seq<byte>)
    requires ValidPath(p) && ValidPath(q)
    requires Header(s, p) + x == Header(t, q) + y
    ensures s == t && p == q && x == y
  {
    var l, r := Header(s, p) + x, Header(t, q) + y;
    assert l[0] == s && r[0] == t;
    assert l[2..] == Join(p) + [NUL] + x;
    assert r[2..] == Join(q) + [NUL] + y;
    JoinHasNoNul(p);
    JoinHasNoNul(q);
    SplitAtSeparator(Join(p), x, Join(q), y, NUL);
    JoinInjective(p, q);
  }

  /** A length-prefixed content can be read back, whatever follows it. */
  lemma ContentReadsBack(a: seq<byte>, x: seq<byte>, b: seq<byte>, y: seq<byte>)
    requires |a| < U64_SIZE && |b| < U64_SIZE
    requires Le64(|a|) + a + x == Le64(|b|) + b + y
    ensures a == b && x == y
  {
    var l, r := Le64(|a|) + a + x, Le64(|b|) + b + y;
    assert l[..8] == Le64(|a|) && r[..8] == Le64(|b|);
    Le64Injective(|a|, |b|);
    assert l[8..8 + |a|] == a && r[8..8 + |a|] == b;
    assert l[8 + |a|..] == x && r[8 + |a|..] == y;
  }

  lemma Regroup(a: seq<byte>, b: seq<byte>, c: seq<byte>)
    ensures (a + b) + c == a + (b + c)
  {
  }

  lemma PayloadReadsBack(a: Entry, x: seq<byte>, b: Entry, y: seq<byte>)
    requires Storable(a) && Storable(b) && Tag(a) == Tag(b)
    requires Payload(a) + x == Payload(b) + y
    ensures SameShape(a, b) && x == y
  {
    if a.File? {
      ContentReadsBack(a.content, x, b.content, y);
    } else {
      assert [] + x == x && [] + y == y;
    }
  }

  /** A record can be read back, whatever follows it. */
  lemma RecordReadsBack(p: Path, a: Entry, x: seq<byte>, q: Path, b: Entry, y: seq<byte>)
    requires ValidPath(p) && ValidPath(q) && Storable(a) && Storable(b)
    requires Record(p, a) + x == Record(q, b) + y
    ensures p == q && SameShape(a, b) && x == y
  {
    Regroup(Header(Tag(a), p), Payload(a), x);
    Regroup(Header(Tag(b), q), Payload(b), y);
    HeaderReadsBack(Tag(a), p, Payload(a) + x, Tag(b), q, Payload(b) + y);
    PayloadReadsBack(a, x, b, y);
  }

  // ---------- a whole tree ----------

  /** The paths below `p` in the order they are visited. */
  ghost function Walk(s: Tree, p: Path): seq<Path>
    decreases Below(s, p), 1, 0
  {
    forall n ensures n in Children(s, p) <==> p + [n] in s { ChildrenAre(s, p, n); }
    WalkNames(s, p, SortedNames(Children(s, p)))
  }

  ghost function WalkNames(s: Tree, p: Path, names: seq<Name>): seq<Path>
    requires forall n :: n in names ==> p + [n] in s
    decreases Below(s, p), 0, |names|
  {
    if names == [] then []
    else
      BelowShrinks(s, p, names[0]);
      WalkEntry(s, p + [names[0]]) + WalkNames(s, p, names[1..])
  }

  ghost function WalkEntry(s: Tree, c: Path): seq<Path>
    requires c in s
    decreases Below(s, c), 2, 0
  {
    [c] + if s[c].Dir? then Walk(s, c) else []
  }

  /** The records of a list of paths, one after the other. */
  ghost function Encode(s: Tree, ps: seq<Path>): seq<byte> {
    if ps == [] || ps[0] !in s then [] else Record(ps[0], s[ps[0]]) + Encode(s, ps[1..])
  }

  /** The tree without the root entry reserved for the authentication code. */
  function Strip(t: Tree): Tree {
    map q | q in t && q != [] && q[0] != HMAC_FILE :: t[q]
  }

  ghost predicate AllStorable(s: Tree) {
    forall q :: q in s ==> Storable(s[q])
  }

  /** The authenticated stream of a checkpoint directory. */
  ghost function Stream(t: Tree): seq<byte> {
    Encode(Strip(t), Walk(Strip(t), []))
  }

  // ---------- the walk visits each path exactly where it should ----------

  lemma {:induction false} WalkCovers(s: Tree, p: Path, q: Path)
    requires WellFormed(s)
    ensures q in Walk(s, p) <==> q in s && p < q
    decreases Below(s, p), 1, 0
  {
    forall n ensures n in Children(s, p) <==> p + [n] in s { ChildrenAre(s, p, n); }
    var names := SortedNames(Children(s, p));
    WalkNamesCovers(s, p, names, q);
    if q in s && p < q {
      ChildOnTheWay(s, p, q);
    }
  }

  lemma {:induction false} WalkNamesCovers(s: Tree, p: Path, names: seq<Name>, q: Path)
    requires WellFormed(s) && forall n :: n in names ==> p + [n] in s
    ensures q in WalkNames(s, p, names) <==> q in s && p < q && q[|p|] in names
    decreases Below(s, p), 0, |names|
  {
    if names != [] {
      BelowShrinks(s, p, names[0]);
      WalkEntryCovers(s, p + [names[0]], q);
      WalkNamesCovers(s, p, names[1..], q);
      assert p + [names[0]] <= q <==> p < q && q[|p|] == names[0];
      assert names == [names[0]] + names[1..];
    }
  }

  lemma {:induction false} WalkEntryCovers(s: Tree, c: Path, q: Path)
    requires WellFormed(s) && c in s
    ensures q in WalkEntry(s, c) <==> q in s && c <= q
    decreases Below(s, c), 2, 0
  {
    assert c <= q <==> q == c || c < q;
    if s[c].Dir? {
      WalkCovers(s, c, q);
    } else {
      WellFormedNotRoot(s, c);
      NothingBelow(s, c);
    }
  }

  // ---------- in which order ----------

  /** A directory before what it holds, and of two siblings the one with the smaller name first, with all below it. */
  predicate EarlierAt(x: Path, y: Path, k: nat) {
    k <= |x| && k < |y| && x[..k] == y[..k] && (k == |x| || Precedes(x[k], y[k]))
  }

  ghost predicate Earlier(x: Path, y: Path) {
    exists k: nat :: EarlierAt(x, y, k)
  }

  ghost predicate InOrder(ps: seq<Path>) {
    forall i, j :: 0 <= i < j < |ps| ==> Earlier(ps[i], ps[j])
  }

  lemma InOrderConcat(xs: seq<Path>, ys: seq<Path>)
    requires InOrder(xs) && InOrder(ys) && forall x, y :: x in xs && y in ys ==> Earlier(x, y)
    ensures InOrder(xs + ys)
  {
    var all := xs + ys;
    forall i, j | 0 <= i < j < |all| ensures Earlier(all[i], all[j]) {
      assert i < |xs| ==> all[i] == xs[i] && all[i] in xs;
      assert j >= |xs| ==> all[j] == ys[j - |xs|] && all[j] in ys;
      assert i >= |xs| ==> all[i] == ys[i - |xs|];
    }
  }

  /** The walk is in that order, so with its coverage it is determined. */
  lemma {:induction false} WalkIsInOrder(s: Tree, p: Path)
    requires WellFormed(s)
    ensures InOrder(Walk(s, p))
    decreases Below(s, p), 1, 0
  {
    forall n ensures n in Children(s, p) <==> p + [n] in s { ChildrenAre(s, p, n); }
    WalkNamesInOrder(s, p, SortedNames(Children(s, p)));
  }

  lemma {:induction false} WalkNamesInOrder(s: Tree, p: Path, names: seq<Name>)
    requires WellFormed(s) && Ascending(names) && forall n :: n in names ==> p + [n] in s
    ensures InOrder(WalkNames(s, p, names))
    decreases Below(s, p), 0, |names|
  {
    if names != [] {
      BelowShrinks(s, p, names[0]);
      var c, rest := p + [names[0]], names[1..];
      WalkEntryInOrder(s, c);
      WalkNamesInOrder(s, p, rest);
      forall x, y | x in WalkEntry(s, c) && y in WalkNames(s, p, rest) ensures Earlier(x, y) {
        WalkEntryCovers(s, c, x);
        WalkNamesCovers(s, p, rest, y);
        var j :| 0 <= j < |rest| && rest[j] == y[|p|];
        assert names[j + 1] == rest[j];
        assert c[|p|] == names[0] && x[|p|] == names[0];
        assert x[..|p|] == p && y[..|p|] == p;
        assert EarlierAt(x, y, |p|);
      }
      InOrderConcat(WalkEntry(s, c), WalkNames(s, p, rest));
    }
  }

  lemma {:induction false} WalkEntryInOrder(s: Tree, c: Path)
    requires WellFormed(s) && c in s
    ensures InOrder(WalkEntry(s, c))
    decreases Below(s, c), 2, 0
  {
    if s[c].Dir? {
      WalkIsInOrder(s, c);
      forall x, y | x in [c] && y in Walk(s, c) ensures Earlier(x, y) {
        WalkCovers(s, c, y);
        assert EarlierAt(c, y, |c|);
      }
      InOrderConcat([c], Walk(s, c));
    }
  }

  lemma WalkStaysInside(s: Tree, p: Path)
    requires WellFormed(s)
    ensures forall q :: q in Walk(s, p) ==> q in s
  {
    forall q ensures q in Walk(s, p) ==> q in s { WalkCovers(s, p, q); }
  }

  lemma StripWellFormed(t: Tree)
    requires WellFormed(t)
    ensures WellFormed(Strip(t))
  {
    forall q | q in Strip(t)
      ensures IsDir(Strip(t), Parent(q))
    {
      assert |q| > 1 ==> Parent(q)[0] == q[0];
    }
  }

  // ---------- unambiguity ----------

  /** Only the root entry of that name is left out, and what a directory of that name holds. */
  lemma StripMeans(t: Tree, q: Path)
    requires WellFormed(t)
    ensures q in Strip(t) <==> q in t && q[0] != Bytes("checkpoint.hmac")
    ensures q in Strip(t) ==> Strip(t)[q] == t[q]
  {
  }

  function Bytes(s: string): seq<byte>
    requires forall c <- s :: c as int < 128
  {
    seq(|s|, i requires 0 <= i < |s| => assert s[i] in s; s[i] as int as byte)
  }

  function ExampleTree(x: byte, mode: nat): Tree {
    map[[[100]] := Dir(mode), [[100], [102]] := File([x], mode)]
  }

  lemma ExampleHolds(x: byte, mode: nat, m: Name)
    ensures [] + [m] in ExampleTree(x, mode) <==> m == [100]
    ensures [[100]] + [m] in ExampleTree(x, mode) <==> m == [102]
  {
    var d, f: Path := [[100]], [[100], [102]];
    var top, below := [] + [m], d + [m];
    assert |top| == 1 && top[0] == m && |below| == 2 && below[0] == [100] && below[1] == m;
    assert top == d <==> m == d[0];
    assert below == f <==> m == f[1];
    assert |d| == 1 && |f| == 2;
  }

  lemma ExampleIsSound(x: byte, mode: nat)
    ensures WellFormed(ExampleTree(x, mode)) && Strip(ExampleTree(x, mode)) == ExampleTree(x, mode)
  {
    assert Parent([[100]]) == [] && Parent([[100], [102]]) == [[100]];
    assert HMAC_FILE[0] == 99;
  }

  lemma ExampleWalk(x: byte, mode: nat)
    ensures Walk(ExampleTree(x, mode), []) == [[[100]], [[100], [102]]]
  {
    var d, f: Path := [[100]], [[100], [102]];
    var t := ExampleTree(x, mode);
    forall m: Name ensures ([] + [m] in t <==> m == [100]) && (d + [m] in t <==> m == [102]) {
      ExampleHolds(x, mode, m);
    }
    OnlyChild(t, [], [100]);
    OnlyChild(t, d, [102]);
    assert d + [[102]] == f && [] + [[100]] == d;
    assert WalkNames(t, d, [[102]]) == WalkEntry(t, f) + WalkNames(t, d, [[102]][1..]);
    assert Walk(t, d) == [f];
    assert WalkNames(t, [], [[100]]) == WalkEntry(t, d) + WalkNames(t, [], [[100]][1..]);
  }

  lemma LengthOne()
    ensures Le64(1) == [1, 0, 0, 0, 0, 0, 0, 0]
  {
    assert LeBytes(0, 3) == [0, 0, 0];
    assert LeBytes(0, 5) == [0, 0] + LeBytes(0, 3);
    assert LeBytes(0, 7) == [0, 0] + LeBytes(0, 5);
    assert Le64(1) == [1] + LeBytes(0, 7);
  }

  lemma ExampleRecords(x: byte, mode: nat)
    ensures Record([[100]], Dir(mode)) == [68, 0, 100, 0]
    ensures Record([[100], [102]], File([x], mode)) == [70, 0, 100, 47, 102, 0, 1, 0, 0, 0, 0, 0, 0, 0, x]
  {
    assert [[100], [102]][1..] == [[102]];
    assert Header(70, [[100], [102]]) == [70, 0, 100, 47, 102, 0];
    LengthOne();
  }

  lemma EncodeTwo(t: Tree, d: Path, f: Path)
    requires d in t && f in t
    ensures Encode(t, [d, f]) == Record(d, t[d]) + Record(f, t[f])
  {
    assert [d, f][1..] == [f] && [f][1..] == [];
    assert Encode(t, [f]) == Record(f, t[f]) + Encode(t, []);
  }

  lemma JoinBytes(x: byte, a: seq<byte>, b: seq<byte>)
    requires a == [68, 0, 100, 0] && b == [70, 0, 100, 47, 102, 0, 1, 0, 0, 0, 0, 0, 0, 0, x]
    ensures a + b == [68, 0, 100, 0, 70, 0, 100, 47, 102, 0, 1, 0, 0, 0, 0, 0, 0, 0, x]
  {
  }

  /** The bytes of a directory `d` that holds a file `f` of one byte, written out. */
  lemma ExampleStream(x: byte, mode: nat)
    ensures Stream(ExampleTree(x, mode)) == [68, 0, 100, 0, 70, 0, 100, 47, 102, 0, 1, 0, 0, 0, 0, 0, 0, 0, x]
  {
    var d, f: Path := [[100]], [[100], [102]];
    var t := ExampleTree(x, mode);
    ExampleIsSound(x, mode);
    ExampleWalk(x, mode);
    ExampleRecords(x, mode);
    EncodeTwo(t, d, f);
    JoinBytes(x, Record(d, Dir(mode)), Record(f, File([x], mode)));
  }

  lemma OnlyChild(t: Tree, p: Path, n: Name)
    requires forall m :: p + [m] in t <==> m == n
    ensures SortedNames(Children(t, p)) == [n]
  {
    forall m ensures m in Children(t, p) <==> m == n { ChildrenAre(t, p, m); }
    AscendingUnique(SortedNames(Children(t, p)), [n]);
  }

  /** Two trees hold the same directories and the same files with the same contents. */
  ghost predicate SameFiles(a: Tree, b: Tree) {
    a.Keys == b.Keys && forall q :: q in a && q in b ==> SameShape(a[q], b[q])
  }

  /** The records of a stream can be read back one by one. */
  lemma {:induction false} EncodeReadsBack(a: Tree, ps: seq<Path>, b: Tree, qs: seq<Path>)
    requires forall q :: q in ps ==> q in a && Storable(a[q]) && ValidPath(q)
    requires forall q :: q in qs ==> q in b && Storable(b[q]) && ValidPath(q)
    requires Encode(a, ps) == Encode(b, qs)
    ensures ps == qs
    ensures forall q :: q in ps ==> SameShape(a[q], b[q])
    decreases |ps|
  {
    assert ps == [] || ps[0] in ps;
    assert qs == [] || qs[0] in qs;
    assert ps == [] <==> |Encode(a, ps)| == 0;
    assert qs == [] <==> |Encode(b, qs)| == 0;
    if ps != [] {
      RecordReadsBack(ps[0], a[ps[0]], Encode(a, ps[1..]), qs[0], b[qs[0]], Encode(b, qs[1..]));
      EncodeReadsBack(a, ps[1..], b, qs[1..]);
      assert ps == [ps[0]] + ps[1..] && qs == [qs[0]] + qs[1..];
    }
  }

  /** Two checkpoint directories have the same stream exactly when they hold the same files. */
  lemma StreamIsUnambiguous(a: Tree, b: Tree)
    requires WellFormed(a) && ValidPaths(a) && AllStorable(Strip(a))
    requires WellFormed(b) && ValidPaths(b) && AllStorable(Strip(b))
    ensures Stream(a) == Stream(b) <==> SameFiles(Strip(a), Strip(b))
  {
    var s, t := Strip(a), Strip(b);
    StripWellFormed(a);
    StripWellFormed(b);
    WalkStaysInside(s, []);
    WalkStaysInside(t, []);
    if Stream(a) == Stream(b) {
      EncodeReadsBack(s, Walk(s, []), t, Walk(t, []));
      forall q
        ensures q in s <==> q in t
        ensures q in s && q in t ==> SameShape(s[q], t[q])
      {
        WalkCovers(s, [], q);
        WalkCovers(t, [], q);
        assert q != [] ==> [] < q;
      }
    }
    if SameFiles(s, t) {
      WalkSame(s, t, []);
      EncodeSame(s, t, Walk(s, []));
    }
  }

  lemma {:induction false} WalkSame(s: Tree, t: Tree, p: Path)
    requires SameFiles(s, t)
    ensures Walk(s, p) == Walk(t, p)
    decreases Below(s, p), 1, 0
  {
    forall n ensures n in Children(s, p) <==> p + [n] in s { ChildrenAre(s, p, n); }
    forall n ensures n in Children(t, p) <==> p + [n] in t { ChildrenAre(t, p, n); }
    assert Children(s, p) == Children(t, p);
    WalkNamesSame(s, t, p, SortedNames(Children(s, p)));
  }

  lemma {:induction false} WalkNamesSame(s: Tree, t: Tree, p: Path, names: seq<Name>)
    requires SameFiles(s, t) && forall n :: n in names ==> p + [n] in s
    ensures WalkNames(s, p, names) == WalkNames(t, p, names)
    decreases Below(s, p), 0, |names|
  {
    if names != [] {
      var c := p + [names[0]];
      BelowShrinks(s, p, names[0]);
      assert SameShape(s[c], t[c]);
      if s[c].Dir? {
        WalkSame(s, t, c);
      }
      WalkNamesSame(s, t, p, names[1..]);
    }
  }

  lemma {:induction false} EncodeSame(s: Tree, t: Tree, ps: seq<Path>)
    requires SameFiles(s, t)
    requires forall q :: q in ps ==> q in s && Storable(s[q]) && q in t && Storable(t[q])
    ensures Encode(s, ps) == Encode(t, ps)
    decreases |ps|
  {
    if ps != [] {
      assert SameShape(s[ps[0]], t[ps[0]]);
      EncodeSame(s, t, ps[1..]);
    }
  }

  // ---------- the traversal that feeds the hasher ----------

  /** Everything the scan of `p` has to read can be read: no links, no special files, printable names. */
  ghost predicate ScannableBelow(s: Tree, p: Path) {
    forall q :: q in s && p <= q ==> (s[q].Dir? || s[q].File?) && ValidUtf8(Join(q))
  }

  /** Skips the reserved root entry. */
  function Kept(p: Path, names: seq<Name>): (r: seq<Name>)
    ensures forall n :: n in r <==> n in names && !(p == [] && n == HMAC_FILE)
  {
    if names == [] then []
    else
      assert names == [names[0]] + names[1..];
      (if p == [] && names[0] == HMAC_FILE then [] else [names[0]]) + Kept(p, names[1..])
  }

  lemma {:induction false} KeptAscends(p: Path, names: seq<Name>)
    requires Ascending(names)
    ensures Ascending(Kept(p, names))
  {
    if names != [] {
      KeptAscends(p, names[1..]);
      var r := Kept(p, names[1..]);
      forall j | 0 <= j < |r|
        ensures Precedes(names[0], r[j])
      {
        assert r[j] in r;
        var k :| 0 <= k < |names[1..]| && names[1..][k] == r[j];
      }
    }
  }

  /** The listing of a directory, sorted and with the reserved entry skipped, is the listing of the stripped tree. */
  lemma KeptIsSortedNames(t: Tree, p: Path, listing: seq<Name>)
    requires p == [] || p[0] != HMAC_FILE
    requires forall i, j :: 0 <= i < j < |listing| ==> listing[i] != listing[j]
    requires forall n :: n in listing <==> p + [n] in t
    ensures Kept(p, Sort(listing)) == SortedNames(Children(Strip(t), p))
  {
    SortAscends(listing);
    KeptAscends(p, Sort(listing));
    forall n
      ensures n in Kept(p, Sort(listing)) <==> n in Children(Strip(t), p)
    {
      ChildrenAre(Strip(t), p, n);
      assert (p + [n])[0] == if p == [] then n else p[0];
    }
    AscendingUnique(Kept(p, Sort(listing)), SortedNames(Children(Strip(t), p)));
  }

  lemma {:induction false} EncodeConcat(s: Tree, ps: seq<Path>, qs: seq<Path>)
    requires forall q :: q in ps ==> q in s
    ensures Encode(s, ps + qs) == Encode(s, ps) + Encode(s, qs)
    decreases |ps|
  {
    if ps == [] {
      assert ps + qs == qs;
    } else {
      assert ps[0] in ps;
      EncodeConcat(s, ps[1..], qs);
      assert (ps + qs)[1..] == ps[1..] + qs;
      Regroup(Record(ps[0], s[ps[0]]), Encode(s, ps[1..]), Encode(s, qs));
    }
  }

  /** Visiting one entry and then the rest hashes what visiting them all hashes. */
  lemma OneEntryThenTheRest(s: Tree, p: Path, names: seq<Name>)
    requires WellFormed(s) && names != [] && forall n :: n in names ==> p + [n] in s
    ensures Encode(s, WalkNames(s, p, names)) ==
            Encode(s, WalkEntry(s, p + [names[0]])) + Encode(s, WalkNames(s, p, names[1..]))
  {
    var c := p + [names[0]];
    forall q ensures q in WalkEntry(s, c) ==> q in s { WalkEntryCovers(s, c, q); }
    EncodeConcat(s, WalkEntry(s, c), WalkNames(s, p, names[1..]));
  }

  lemma ScannableStep(s: Tree, p: Path, c: Path)
    requires ScannableBelow(s, p) && p <= c
    ensures ScannableBelow(s, c)
  {
    assert forall q :: q in s ==> (c <= q ==> p <= q);
  }

  lemma ScannableDir(s: Tree, p: Path, names: seq<Name>)
    requires WellFormed(s)
    requires p in s ==> (s[p].Dir? || s[p].File?) && ValidUtf8(Join(p))
    requires forall n :: p + [n] in s ==> n in names
    requires forall n :: n in names ==> ScannableBelow(s, p + [n])
    ensures ScannableBelow(s, p)
  {
    forall q | q in s && p <= q
      ensures (s[q].Dir? || s[q].File?) && ValidUtf8(Join(q))
    {
      assert q == p || p < q;
      if p < q {
        ChildOnTheWay(s, p, q);
        assert ScannableBelow(s, p + [q[|p|]]);
      }
    }
  }

  method UpdateDir(h: Hasher, v: Volume, ghost s: Tree, p: Path) returns (ok: bool)
    requires WellFormed(v.nodes) && s == Strip(v.nodes) && WellFormed(s) && IsDir(s, p)
    requires p != [] ==> ValidUtf8(Join(p))
    modifies h`absorbed
    ensures ok ==> h.absorbed == old(h.absorbed) + Encode(s, Walk(s, p))
    ensures ok ==> ScannableBelow(s, p)
    ensures v.reliable && ScannableBelow(s, p) ==> ok
    decreases Below(s, p), 2
  {
    var listing;
    ok, listing := v.ReadDir(p);
    if !ok { return; }
    var names := Kept(p, Sort(listing));
    KeptIsSortedNames(v.nodes, p, listing);
    forall n ensures n in Children(s, p) <==> p + [n] in s { ChildrenAre(s, p, n); }
    ok := UpdateNames(h, v, s, p, names);
    if !ok { return; }
    ScannableDir(s, p, names);
  }

  method UpdateNames(h: Hasher, v: Volume, ghost s: Tree, p: Path, names: seq<Name>) returns (ok: bool)
    requires WellFormed(v.nodes) && s == Strip(v.nodes) && WellFormed(s)
    requires forall n :: n in names ==> p + [n] in s
    modifies h`absorbed
    ensures ok ==> h.absorbed == old(h.absorbed) + Encode(s, WalkNames(s, p, names))
    ensures ok ==> forall n :: n in names ==> ScannableBelow(s, p + [n])
    ensures v.reliable && ScannableBelow(s, p) ==> ok
    decreases Below(s, p), 1
  {
    ok := true;
    ghost var goal := h.absorbed + Encode(s, WalkNames(s, p, names));
    assert names[0..] == names;
    for i := 0 to |names|
      invariant ok && h.absorbed + Encode(s, WalkNames(s, p, names[i..])) == goal
      invariant forall k :: 0 <= k < i ==> ScannableBelow(s, p + [names[k]])
    {
      ghost var before := h.absorbed;
      assert names[i] in names;
      BelowShrinks(s, p, names[i]);
      if ScannableBelow(s, p) {
        ScannableStep(s, p, p + [names[i]]);
      }
      ok := UpdateEntry(h, v, s, p + [names[i]]);
      if !ok { return; }
      StepOver(s, p, names, i, before, h.absorbed);
    }
    assert names[|names|..] == [];
  }

  /** What is left to hash shrinks by exactly what was hashed. */
  lemma StepOver(s: Tree, p: Path, names: seq<Name>, i: nat, before: seq<byte>, now: seq<byte>)
    requires WellFormed(s) && i < |names| && forall n :: n in names ==> p + [n] in s
    requires now == before + Encode(s, WalkEntry(s, p + [names[i]]))
    ensures before + Encode(s, WalkNames(s, p, names[i..])) == now + Encode(s, WalkNames(s, p, names[i + 1..]))
  {
    assert names[i..][0] == names[i] && names[i..][1..] == names[i + 1..];
    OneEntryThenTheRest(s, p, names[i..]);
    Regroup(before, Encode(s, WalkEntry(s, p + [names[i]])), Encode(s, WalkNames(s, p, names[i + 1..])));
  }

  method UpdateHeader(h: Hasher, tag: byte, c: Path)
    modifies h`absorbed
    ensures h.absorbed == old(h.absorbed) + Header(tag, c)
  {
    ghost var before := h.absorbed;
    h.Update([tag, NUL]);
    h.Update(Join(c));
    h.Update([NUL]);
    Regroup(before, [tag, NUL], Join(c));
    Regroup(before, [tag, NUL] + Join(c), [NUL]);
  }

  method UpdateFile(h: Hasher, c: Path, content: seq<byte>)
    modifies h`absorbed
    ensures h.absorbed == old(h.absorbed) + (Header(TAG_FILE, c) + (Le64(|content|) + content))
  {
    ghost var before := h.absorbed;
    UpdateHeader(h, TAG_FILE, c);
    h.Update(Le64(|content|));
    h.UpdateFromFile(content);
    Regroup(before + Header(TAG_FILE, c), Le64(|content|), content);
    Regroup(before, Header(TAG_FILE, c), Le64(|content|) + content);
  }

  method UpdateEntry(h: Hasher, v: Volume, ghost s: Tree, c: Path) returns (ok: bool)
    requires WellFormed(v.nodes) && s == Strip(v.nodes) && WellFormed(s) && c in s
    modifies h`absorbed
    ensures ok ==> h.absorbed == old(h.absorbed) + Encode(s, WalkEntry(s, c))
    ensures ok ==> ScannableBelow(s, c)
    ensures v.reliable && ScannableBelow(s, c) ==> ok
    decreases Below(s, c), 3
  {
    EncodeEntry(s, c);
    ScannableLeaf(s, c);
    var e := v.nodes[c];
    if e.Link? || !ValidUtf8(Join(c)) || e.Special? { return false; }
    if e.Dir? {
      ghost var before := h.absorbed;
      UpdateHeader(h, TAG_DIR, c);
      ok := UpdateDir(h, v, s, c);
      if ok {
        Regroup(before, Header(TAG_DIR, c), Encode(s, Walk(s, c)));
      }
    } else {
      ok := v.Outcome();
      if !ok { return; }
      UpdateFile(h, c, e.content);
    }
  }

  lemma ScannableLeaf(s: Tree, c: Path)
    requires WellFormed(s) && c in s
    ensures ScannableBelow(s, c) ==> (s[c].Dir? || s[c].File?) && ValidUtf8(Join(c))
    ensures s[c].File? && ValidUtf8(Join(c)) ==> ScannableBelow(s, c)
  {
    assert c <= c;
    if s[c].File? {
      NothingBelow(s, c);
      assert forall q :: q in s ==> (c <= q ==> q == c || c < q);
    }
  }

  lemma EncodeEntry(s: Tree, c: Path)
    requires WellFormed(s) && c in s
    ensures s[c].Dir? ==> Encode(s, WalkEntry(s, c)) == Header(TAG_DIR, c) + Encode(s, Walk(s, c))
    ensures s[c].File? ==> Encode(s, WalkEntry(s, c)) == Header(TAG_FILE, c) + (Le64(|s[c].content|) + s[c].content)
  {
    var rest := if s[c].Dir? then Walk(s, c) else [];
    assert WalkEntry(s, c) == [c] + rest;
    assert ([c] + rest)[1..] == rest;
    assert Encode(s, [c] + rest) == Record(c, s[c]) + Encode(s, rest);
    if s[c].Dir? {
      assert Record(c, s[c]) == Header(TAG_DIR, c);
    } else {
      assert Encode(s, rest) == [];
    }
  }
}
