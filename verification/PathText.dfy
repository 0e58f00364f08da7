/** Relative paths as the byte strings that are hashed, listed and compared. */
module PathText {
  import opened FileTree

  const NUL: byte := 0
  const SLASH: byte := 47

  /** What a directory entry may be called. */
  ghost predicate ValidName(n: Name) {
    n != [] && NUL !in n && SLASH !in n
  }

  ghost predicate ValidPath(p: Path) {
    forall i :: 0 <= i < |p| ==> ValidName(p[i])
  }

  ghost predicate ValidPaths(t: Tree) {
    forall p :: p in t ==> ValidPath(p)
  }

  /** Components joined by slashes. */
  function Join(p: Path): seq<byte> {
    if p == [] then []
    else if |p| == 1 then p[0]
    else p[0] + [SLASH] + Join(p[1..])
  }

  /** A separator that does not occur on the left of either split makes the two splits the same. */
  lemma {:induction false} SplitAtSeparator(a: seq<byte>, x: seq<byte>, b: seq<byte>, y: seq<byte>, sep: byte)
    requires a + [sep] + x == b + [sep] + y
    requires sep !in a && sep !in b
    ensures a == b && x == y
  {
    var l, r := a + [sep] + x, b + [sep] + y;
    assert l[|a|] == sep && r[|b|] == sep;
    assert forall i :: 0 <= i < |a| ==> l[i] == a[i];
    assert forall i :: 0 <= i < |b| ==> r[i] == b[i];
    assert l[..|a|] == a && r[..|b|] == b;
    assert l[|a| + 1..] == x && r[|b| + 1..] == y;
  }

  lemma {:induction false} JoinHasNoNul(p: Path)
    requires ValidPath(p)
    ensures NUL !in Join(p)
  {
    if |p| > 1 {
      assert ValidName(p[0]);
      JoinHasNoNul(p[1..]);
    } else if |p| == 1 {
      assert ValidName(p[0]);
    }
  }

  /** Nothing, one name and several names can be told apart. */
  lemma JoinShape(p: Path)
    requires ValidPath(p)
    ensures p == [] <==> Join(p) == []
    ensures |p| > 1 <==> SLASH in Join(p)
  {
    if p != [] {
      assert ValidName(p[0]);
    }
    if |p| > 1 {
      assert Join(p)[|p[0]|] == SLASH;
    }
  }

  /** Different paths read differently. */
  lemma {:induction false} JoinInjective(p: Path, q: Path)
    requires ValidPath(p) && ValidPath(q) && Join(p) == Join(q)
    ensures p == q
    decreases |p|
  {
    JoinShape(p);
    JoinShape(q);
    if |p| > 1 {
      assert ValidName(p[0]) && ValidName(q[0]);
      SplitAtSeparator(p[0], Join(p[1..]), q[0], Join(q[1..]), SLASH);
      JoinInjective(p[1..], q[1..]);
      assert p == [p[0]] + p[1..] && q == [q[0]] + q[1..];
    }
  }

  // ---------- UTF-8 ----------

  predicate Continuation(b: byte) {
    0x80 <= b < 0xC0
  }

  /** Length of the well-formed UTF-8 sequence at the front of `s`, or 0. */
  function Utf8Unit(s: seq<byte>): (n: nat)
    requires s != []
    ensures n <= |s|
  {
    if s[0] < 0x80 then 1
    else if 0xC2 <= s[0] < 0xE0 && |s| >= 2 && Continuation(s[1]) then 2
    else if 0xE0 <= s[0] < 0xF0 && |s| >= 3 && Continuation(s[1]) && Continuation(s[2])
            && (s[0] == 0xE0 ==> s[1] >= 0xA0) && (s[0] == 0xED ==> s[1] < 0xA0) then 3
    else if 0xF0 <= s[0] < 0xF5 && |s| >= 4 && Continuation(s[1]) && Continuation(s[2]) && Continuation(s[3])
            && (s[0] == 0xF0 ==> s[1] >= 0x90) && (s[0] == 0xF4 ==> s[1] < 0x90) then 4
    else 0
  }

  predicate ValidUtf8(s: seq<byte>)
    decreases |s|
  {
    s == [] || (Utf8Unit(s) > 0 && ValidUtf8(s[Utf8Unit(s)..]))
  }

  lemma {:induction false} AsciiIsUtf8(s: seq<byte>)
    requires forall i :: 0 <= i < |s| ==> s[i] < 0x80
    ensures ValidUtf8(s)
    decreases |s|
  {
    if s != [] {
      AsciiIsUtf8(s[1..]);
    }
  }
}
