/**
 Mapping ids into a user namespace.  One piece of code checks, with saturating
 additions, that an id is mapped; another, with checked additions, looks the
 host id up.  The two must agree.
 */
module IdMapping {

  const MAX: nat := 0xFFFF_FFFF

  type U32 = x: nat | x <= MAX

  datatype Mapping = Mapping(container: U32, host: U32, count: U32)

  datatype HostId = Mapped(host: U32) | RangeOverflow | HostOverflow | Unmapped

  /** The range's end does not fit. */
  predicate Overflows(m: Mapping) {
    m.container + m.count > MAX
  }

  predicate Covers(m: Mapping, id: U32) {
    m.container <= id < m.container + m.count
  }

  function SaturatingAdd(a: U32, b: U32): U32 {
    if a + b > MAX then MAX else a + b
  }

  predicate Reaches(m: Mapping, id: U32) {
    m.container <= id < SaturatingAdd(m.container, m.count)
  }

  /** What the configuration check accepts. */
  predicate Accepts(ms: seq<Mapping>, id: U32) {
    exists m <- ms :: Reaches(m, id)
  }

  /** What one range makes of an id it covers. */
  function Shift(m: Mapping, id: U32): HostId
    requires Covers(m, id)
  {
    if m.host + (id - m.container) > MAX then HostOverflow else Mapped(m.host + (id - m.container))
  }

  /** The outcome is decided by the first range that overflows or covers the id. */
  function HostIdOf(ms: seq<Mapping>, id: U32): HostId {
    if ms == [] then Unmapped
    else if Overflows(ms[0]) then RangeOverflow
    else if Covers(ms[0], id) then Shift(ms[0], id)
    else HostIdOf(ms[1..], id)
  }

  method LookUp(ms: seq<Mapping>, id: U32) returns (r: HostId)
    ensures r == HostIdOf(ms, id)
  {
    for i := 0 to |ms|
      invariant HostIdOf(ms, id) == HostIdOf(ms[i..], id)
    {
      assert ms[i..][1..] == ms[i + 1..];
      if ms[i].container + ms[i].count > MAX {
        return RangeOverflow;
      }
      var end := ms[i].container + ms[i].count;
      if id >= ms[i].container && id < end {
        if ms[i].host + (id - ms[i].container) > MAX {
          return HostOverflow;
        }
        return Mapped(ms[i].host + (id - ms[i].container));
      }
    }
    return Unmapped;
  }

  /** The check accepts an id below the end of a range that starts at or below it; the last id never. */
  lemma AcceptsMeans(ms: seq<Mapping>, id: U32)
    ensures Accepts(ms, id) <==>
            id < 0xFFFF_FFFF && exists i :: 0 <= i < |ms| && ms[i].container <= id < ms[i].container + ms[i].count
  {
    forall i | 0 <= i < |ms|
      ensures Reaches(ms[i], id) <==> id < 0xFFFF_FFFF && ms[i].container <= id < ms[i].container + ms[i].count
    {
    }
    if Accepts(ms, id) {
      var m :| m in ms && Reaches(m, id);
      var i :| 0 <= i < |ms| && ms[i] == m;
    }
  }

  /** Index `k` holds the first range that reaches the id. */
  predicate FirstReach(ms: seq<Mapping>, id: U32, k: nat) {
    k < |ms| && Reaches(ms[k], id) && forall j :: 0 <= j < k ==> !Reaches(ms[j], id)
  }

  /**
   An accepted id is looked up successfully exactly when no range up to the first
   that reaches it overflows, and its host id fits.
   */
  lemma {:induction false} AcceptedIsMapped(ms: seq<Mapping>, id: U32, k: nat)
    requires FirstReach(ms, id, k)
    ensures HostIdOf(ms, id).Mapped? <==>
              (forall j :: 0 <= j <= k ==> !Overflows(ms[j])) && ms[k].host + (id - ms[k].container) <= MAX
    ensures HostIdOf(ms, id).Mapped? ==> HostIdOf(ms, id).host == ms[k].host + (id - ms[k].container)
  {
    if k > 0 && !Overflows(ms[0]) {
      var rest := ms[1..];
      assert forall j :: 0 <= j < k ==> rest[j] == ms[j + 1];
      AcceptedIsMapped(rest, id, k - 1);
      assert (forall j :: 0 <= j <= k - 1 ==> !Overflows(rest[j])) <==> (forall j :: 0 <= j <= k ==> !Overflows(ms[j])) by {
        assert forall j :: 1 <= j <= k ==> ms[j] == rest[j - 1];
      }
    }
  }

  /** Whatever is looked up successfully was accepted. */
  lemma {:induction false} MappedIsAccepted(ms: seq<Mapping>, id: U32)
    requires HostIdOf(ms, id).Mapped?
    ensures Accepts(ms, id)
  {
    if !Covers(ms[0], id) {
      MappedIsAccepted(ms[1..], id);
      var m :| m in ms[1..] && Reaches(m, id);
      assert m in ms;
    } else {
      assert Reaches(ms[0], id);
    }
  }

  /** Index `k` holds the first range that runs past the last id or covers `id`. */
  predicate FirstDecides(ms: seq<Mapping>, id: U32, k: nat) {
    k <= |ms| && forall j :: 0 <= j < k ==> ms[j].container + ms[j].count <= 0xFFFF_FFFF && !Covers(ms[j], id)
  }

  /** Which outcome that range decides, and that none means unmapped. */
  lemma {:induction false} OutcomeMeans(ms: seq<Mapping>, id: U32, k: nat)
    requires FirstDecides(ms, id, k)
    ensures k == |ms| ==> HostIdOf(ms, id) == Unmapped
    ensures k < |ms| && ms[k].container + ms[k].count > 0xFFFF_FFFF ==> HostIdOf(ms, id) == RangeOverflow
    ensures k < |ms| && ms[k].container + ms[k].count <= 0xFFFF_FFFF && Covers(ms[k], id) ==>
              var host := ms[k].host + (id - ms[k].container);
              HostIdOf(ms, id) == if host <= 0xFFFF_FFFF then Mapped(host) else HostOverflow
  {
    if k > 0 {
      assert !Overflows(ms[0]) && !Covers(ms[0], id);
      OutcomeMeans(ms[1..], id, k - 1);
    }
  }

  /** No range runs past the last id, on either side. */
  predicate Fits(ms: seq<Mapping>) {
    forall m <- ms :: !Overflows(m) && m.host + m.count <= MAX + 1
  }

  lemma {:induction false} FirstReachExists(ms: seq<Mapping>, id: U32) returns (k: nat)
    requires Accepts(ms, id)
    ensures FirstReach(ms, id, k)
  {
    if Reaches(ms[0], id) {
      k := 0;
    } else {
      var m :| m in ms && Reaches(m, id);
      assert m in ms[1..];
      var rest := FirstReachExists(ms[1..], id);
      k := rest + 1;
    }
  }

  /** Where nothing overflows, the check and the lookup agree. */
  lemma CheckAgreesWithLookup(ms: seq<Mapping>, id: U32)
    requires Fits(ms)
    ensures Accepts(ms, id) <==> HostIdOf(ms, id).Mapped?
  {
    if Accepts(ms, id) {
      var k := FirstReachExists(ms, id);
      AcceptedIsMapped(ms, id, k);
    }
    if HostIdOf(ms, id).Mapped? {
      MappedIsAccepted(ms, id);
    }
  }

  /** Where a range overflows they need not: an accepted id may have no host id. */
  lemma OverflowSplitsThem()
    ensures var ms := [Mapping(1, 0, MAX)];
            Accepts(ms, 5) && HostIdOf(ms, 5) == RangeOverflow
  {
    assert Mapping(1, 0, MAX) in [Mapping(1, 0, MAX)];
  }

  // ---------- order and injectivity ----------

  predicate DisjointContainers(ms: seq<Mapping>) {
    forall i, j :: 0 <= i < j < |ms| ==>
      ms[i].container + ms[i].count <= ms[j].container || ms[j].container + ms[j].count <= ms[i].container
      || ms[i].count == 0 || ms[j].count == 0
  }

  predicate DisjointHosts(ms: seq<Mapping>) {
    forall i, j :: 0 <= i < j < |ms| ==>
      ms[i].host + ms[i].count <= ms[j].host || ms[j].host + ms[j].count <= ms[i].host
      || ms[i].count == 0 || ms[j].count == 0
  }

  /** The range that decided a successful lookup. */
  lemma {:induction false} Decider(ms: seq<Mapping>, id: U32) returns (k: nat)
    requires HostIdOf(ms, id).Mapped?
    ensures k < |ms| && Covers(ms[k], id) && HostIdOf(ms, id).host == ms[k].host + (id - ms[k].container)
  {
    if Covers(ms[0], id) {
      k := 0;
    } else {
      var rest := Decider(ms[1..], id);
      k := rest + 1;
    }
  }

  lemma {:induction false} OnlyOutcomes(ms: seq<Mapping>, id: U32)
    requires Fits(ms)
    ensures HostIdOf(ms, id).Mapped? || HostIdOf(ms, id).Unmapped?
  {
    if ms != [] && !Covers(ms[0], id) {
      assert forall m <- ms[1..] :: m in ms;
      OnlyOutcomes(ms[1..], id);
    }
  }

  /** With disjoint container ranges the lookup does not depend on their order. */
  lemma OrderDoesNotMatter(ms: seq<Mapping>, ns: seq<Mapping>, id: U32)
    requires Fits(ms) && DisjointContainers(ms) && multiset(ms) == multiset(ns)
    ensures HostIdOf(ms, id) == HostIdOf(ns, id)
  {
    forall m ensures m in ms <==> m in ns {
      assert m in ms <==> m in multiset(ms);
      assert m in ns <==> m in multiset(ns);
    }
    CheckAgreesWithLookup(ms, id);
    CheckAgreesWithLookup(ns, id);
    assert Accepts(ms, id) == Accepts(ns, id);
    if Accepts(ms, id) {
      var k := Decider(ms, id);
      var l := Decider(ns, id);
      assert ns[l] in ms;
      var l' :| 0 <= l' < |ms| && ms[l'] == ns[l];
      assert l' == k;
    } else {
      OnlyOutcomes(ms, id);
      OnlyOutcomes(ns, id);
    }
  }

  /** With disjoint host ranges no two ids share a host id. */
  lemma LookupIsInjective(ms: seq<Mapping>, a: U32, b: U32)
    requires DisjointHosts(ms)
    requires HostIdOf(ms, a).Mapped? && HostIdOf(ms, a) == HostIdOf(ms, b)
    ensures a == b
  {
    var i := Decider(ms, a);
    var j := Decider(ms, b);
    assert i == j;
  }
}
