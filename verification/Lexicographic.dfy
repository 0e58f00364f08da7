/** Sequences in dictionary order, over any strict total order of their elements. */
module Lexicographic {

  ghost predicate StrictOrder<T(!new)>(below: (T, T) -> bool) {
    && (forall x :: !below(x, x))
    && (forall x, y, z :: below(x, y) && below(y, z) ==> below(x, z))
    && (forall x, y :: x != y ==> below(x, y) || below(y, x))
  }

  predicate Less<T(==)>(below: (T, T) -> bool, a: seq<T>, b: seq<T>) {
    if b == [] then false
    else if a == [] then true
    else if a[0] != b[0] then below(a[0], b[0])
    else Less(below, a[1..], b[1..])
  }

  lemma {:induction false} LessIrreflexive<T>(below: (T, T) -> bool, a: seq<T>)
    ensures !Less(below, a, a)
  {
    if a != [] {
      LessIrreflexive(below, a[1..]);
    }
  }

  lemma {:induction false} LessTransitive<T(!new)>(below: (T, T) -> bool, a: seq<T>, b: seq<T>, c: seq<T>)
    requires StrictOrder(below) && Less(below, a, b) && Less(below, b, c)
    ensures Less(below, a, c)
  {
    if a != [] && a[0] == b[0] == c[0] {
      LessTransitive(below, a[1..], b[1..], c[1..]);
    }
  }

  lemma {:induction false} LessTotal<T(!new)>(below: (T, T) -> bool, a: seq<T>, b: seq<T>)
    requires StrictOrder(below) && a != b
    ensures Less(below, a, b) || Less(below, b, a)
  {
    if a != [] && b != [] && a[0] == b[0] {
      assert a == [a[0]] + a[1..] && b == [b[0]] + b[1..];
      LessTotal(below, a[1..], b[1..]);
    }
  }

  /** An earlier part of equal length decides. */
  lemma {:induction false} LessByPrefix<T>(below: (T, T) -> bool, a: seq<T>, b: seq<T>, x: seq<T>, y: seq<T>)
    requires |a| == |b| && Less(below, a, b)
    ensures Less(below, a + x, b + y)
  {
    assert (a + x)[1..] == a[1..] + x && (b + y)[1..] == b[1..] + y;
    if a[0] == b[0] {
      LessByPrefix(below, a[1..], b[1..], x, y);
    }
  }

  /** Equal parts leave the decision to what follows. */
  lemma {:induction false} LessAfterPrefix<T>(below: (T, T) -> bool, a: seq<T>, x: seq<T>, y: seq<T>)
    requires Less(below, x, y)
    ensures Less(below, a + x, a + y)
  {
    if a == [] {
      assert a + x == x && a + y == y;
    } else {
      assert (a + x)[1..] == a[1..] + x && (a + y)[1..] == a[1..] + y;
      LessAfterPrefix(below, a[1..], x, y);
    }
  }

  /** At index `k`, where the two first differ, `a` has ended or has the lower element. */
  predicate LowerAt<T(==)>(below: (T, T) -> bool, a: seq<T>, b: seq<T>, k: nat) {
    k <= |a| && k < |b| && a[..k] == b[..k] && (k == |a| || (a[k] != b[k] && below(a[k], b[k])))
  }

  /** What the order means: one ends first, or is lower, where the two first differ. */
  lemma {:induction false} LessMeans<T>(below: (T, T) -> bool, a: seq<T>, b: seq<T>)
    ensures Less(below, a, b) <==> exists k: nat :: LowerAt(below, a, b, k)
  {
    if b != [] {
      if a == [] {
        assert LowerAt(below, a, b, 0);
      } else if a[0] != b[0] {
        if below(a[0], b[0]) {
          assert LowerAt(below, a, b, 0);
        }
        forall k: nat | k > 0 ensures !LowerAt(below, a, b, k) {
          if k <= |a| && k <= |b| {
            assert a[..k][0] == a[0] && b[..k][0] == b[0];
          }
        }
      } else {
        LessMeans(below, a[1..], b[1..]);
        forall k: nat ensures LowerAt(below, a[1..], b[1..], k) <==> LowerAt(below, a, b, k + 1) {
          if k < |a| && k < |b| {
            assert a[..k + 1] == [a[0]] + a[1..][..k] && b[..k + 1] == [b[0]] + b[1..][..k];
            assert a[..k + 1] == b[..k + 1] <==> a[1..][..k] == b[1..][..k];
          }
        }
        if Less(below, a, b) {
          var k: nat :| LowerAt(below, a[1..], b[1..], k);
          assert LowerAt(below, a, b, k + 1);
        }
        forall k: nat | LowerAt(below, a, b, k) ensures Less(below, a, b) {
          assert k > 0;
          assert LowerAt(below, a[1..], b[1..], k - 1);
        }
      }
    }
  }
}
