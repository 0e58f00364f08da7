/**
 Narrowing a process to the handoff capabilities.  The kernel's rules are those
 of capabilities(7), capset(2) and prctl(2); the thread calls them one by one, and
 each call may be refused.
 */
module Capabilities {

  type Cap = c: nat | c < 64

  /** The five capability sets of a thread. */
  datatype Creds = Creds(
    permitted: set<Cap>, effective: set<Cap>, inheritable: set<Cap>, ambient: set<Cap>, bounding: set<Cap>)

  const CAP_SETPCAP: Cap := 8

  /** chown, dac_override, dac_read_search, fowner, fsetid, setgid, setuid, setpcap, sys_chroot, sys_ptrace, sys_admin */
  const HANDOFF: set<Cap> := {0, 1, 2, 3, 4, 6, 7, 8, 18, 19, 21}

  /** The kernel's numbers of them, as intervals. */
  lemma HandoffNumbers(cap: Cap)
    ensures cap in HANDOFF <==> cap <= 4 || 6 <= cap <= 8 || 18 <= cap <= 19 || cap == 21
  {
  }

  /** What the kernel guarantees of every thread. */
  predicate Consistent(c: Creds) {
    c.effective <= c.permitted && c.ambient <= c.permitted && c.ambient <= c.inheritable
  }

  // ---------- the kernel's rules ----------

  predicate CapsetAllowed(c: Creds, permitted: set<Cap>, effective: set<Cap>, inheritable: set<Cap>) {
    && permitted <= c.permitted
    && effective <= permitted
    && inheritable <= c.inheritable + c.bounding
    && (CAP_SETPCAP in c.effective || inheritable <= c.inheritable + c.permitted)
  }

  function AfterCapset(c: Creds, permitted: set<Cap>, effective: set<Cap>, inheritable: set<Cap>): Creds {
    Creds(permitted, effective, inheritable, c.ambient * permitted * inheritable, c.bounding)
  }

  /** The thread that narrows itself. */
  class Task {
    var creds: Creds
    /** Every state the thread has been in, the current one last. */
    ghost var trail: seq<Creds>

    constructor (c: Creds)
      ensures creds == c && trail == [c]
    {
      creds := c;
      trail := [c];
    }

    /** No state since the first was inconsistent, and none regained anything. */
    ghost predicate Narrowing(first: Creds)
      reads this
    {
      && trail != [] && trail[|trail| - 1] == creds
      && forall c <- trail :: Consistent(c) && c.permitted <= first.permitted && c.bounding <= first.bounding
    }

    method Capset(permitted: set<Cap>, effective: set<Cap>, inheritable: set<Cap>) returns (ok: bool)
      modifies this
      ensures ok == CapsetAllowed(old(creds), permitted, effective, inheritable)
      ensures creds == if ok then AfterCapset(old(creds), permitted, effective, inheritable) else old(creds)
      ensures trail == if ok then old(trail) + [creds] else old(trail)
      ensures Consistent(old(creds)) ==> Consistent(creds)
      ensures creds.permitted <= old(creds).permitted && creds.bounding == old(creds).bounding
    {
      ok := CapsetAllowed(creds, permitted, effective, inheritable);
      if ok {
        creds := AfterCapset(creds, permitted, effective, inheritable);
        trail := trail + [creds];
      }
    }

    method DropBounding(cap: Cap) returns (ok: bool)
      modifies this
      ensures ok == (CAP_SETPCAP in old(creds).effective)
      ensures creds == if ok then old(creds).(bounding := old(creds).bounding - {cap}) else old(creds)
      ensures trail == if ok then old(trail) + [creds] else old(trail)
    {
      ok := CAP_SETPCAP in creds.effective;
      if ok {
        creds := creds.(bounding := creds.bounding - {cap});
        trail := trail + [creds];
      }
    }

    method ClearAmbient()
      modifies this
      ensures creds == old(creds).(ambient := {})
      ensures trail == old(trail) + [creds]
    {
      creds := creds.(ambient := {});
      trail := trail + [creds];
    }

    method RaiseAmbient(cap: Cap) returns (ok: bool)
      modifies this
      ensures ok == (cap in old(creds).permitted && cap in old(creds).inheritable)
      ensures creds == if ok then old(creds).(ambient := old(creds).ambient + {cap}) else old(creds)
      ensures trail == if ok then old(trail) + [creds] else old(trail)
    {
      ok := cap in creds.permitted && cap in creds.inheritable;
      if ok {
        creds := creds.(ambient := creds.ambient + {cap});
        trail := trail + [creds];
      }
    }

    /** Drops from the bounding set, one by one, all of `extra`. */
    method DropBoundingExtras(extra: set<Cap>, ghost first: Creds) returns (ok: bool)
      requires Narrowing(first)
      modifies this
      ensures Narrowing(first)
      ensures CAP_SETPCAP in old(creds).effective ==> ok && creds == old(creds).(bounding := old(creds).bounding - extra)
    {
      var rest := extra;
      ok := true;
      while ok && rest != {}
        invariant rest <= extra && Narrowing(first)
        invariant ok || CAP_SETPCAP !in old(creds).effective
        invariant creds == old(creds).(bounding := old(creds).bounding - (extra - rest))
        decreases |rest| + if ok then 1 else 0
      {
        var cap :| cap in rest;
        assert old(creds).bounding - (extra - rest) - {cap} == old(creds).bounding - (extra - (rest - {cap}));
        ok := DropBounding(cap);
        if ok {
          rest := rest - {cap};
        }
      }
    }

    /** Drops from the permitted set, one by one, all of `extra`. */
    method DropPermittedExtras(extra: set<Cap>, ghost first: Creds) returns (ok: bool)
      requires Narrowing(first) && creds.ambient == {}
      modifies this
      ensures Narrowing(first)
      ensures old(creds).effective !! extra ==> ok && creds == old(creds).(permitted := old(creds).permitted - extra)
    {
      var rest := extra;
      ok := true;
      while ok && rest != {}
        invariant rest <= extra && Narrowing(first)
        invariant ok || !(old(creds).effective !! extra)
        invariant creds == old(creds).(permitted := old(creds).permitted - (extra - rest))
        decreases |rest| + if ok then 1 else 0
      {
        var cap :| cap in rest;
        assert old(creds).permitted - (extra - rest) - {cap} == old(creds).permitted - (extra - (rest - {cap}));
        ok := Capset(creds.permitted - {cap}, creds.effective, creds.inheritable);
        if ok {
          rest := rest - {cap};
        }
      }
    }

    /** Clears the ambient set and raises, one by one, all of `caps`. */
    method SetAmbient(caps: set<Cap>, ghost first: Creds) returns (ok: bool)
      requires Narrowing(first)
      modifies this
      ensures Narrowing(first)
      ensures caps <= old(creds).permitted * old(creds).inheritable ==> ok && creds == old(creds).(ambient := caps)
    {
      ClearAmbient();
      var rest := caps;
      ok := true;
      while ok && rest != {}
        invariant rest <= caps && Narrowing(first)
        invariant ok || !(caps <= old(creds).permitted * old(creds).inheritable)
        invariant creds == old(creds).(ambient := caps - rest)
        decreases |rest| + if ok then 1 else 0
      {
        var cap :| cap in rest;
        assert caps - rest + {cap} == caps - (rest - {cap});
        assert caps <= old(creds).permitted * old(creds).inheritable ==> cap in old(creds).permitted * old(creds).inheritable;
        ok := RaiseAmbient(cap);
        if ok {
          rest := rest - {cap};
        }
      }
      assert rest == {} ==> caps - rest == caps;
    }

    /**
     Narrows the thread.  It succeeds exactly when the handoff set lies in Permitted
     and in Inheritable union Bounding, and then every set but Bounding equals it.
     */
    method RestoreHandoff() returns (ok: bool)
      requires Consistent(creds) && trail == [creds]
      modifies this
      ensures ok <==> HANDOFF <= old(creds).permitted && HANDOFF <= old(creds).inheritable + old(creds).bounding
      ensures ok ==> creds == Creds(HANDOFF, HANDOFF, HANDOFF, HANDOFF, old(creds).bounding * HANDOFF)
      ensures !(HANDOFF <= old(creds).permitted) ==> creds == old(creds)
      ensures !ok && HANDOFF <= old(creds).permitted ==> creds == old(creds).(ambient := {}, effective := HANDOFF)
      ensures Narrowing(old(creds))
    {
      ghost var first := creds;
      var missing := HANDOFF - creds.permitted;
      if missing != {} {
        return false;
      }
      assert HANDOFF <= first.permitted by {
        forall c | c in HANDOFF ensures c in first.permitted {
          assert c !in missing;
        }
      }
      var extraPermitted := creds.permitted - HANDOFF;
      var extraBounding := creds.bounding - HANDOFF;
      ClearAmbient();
      ok := Capset(creds.permitted, HANDOFF, creds.inheritable);
      assert ok;  // the kernel cannot refuse, here and after the inheritable set
      assert creds == first.(ambient := {}, effective := HANDOFF);
      ok := Capset(creds.permitted, creds.effective, HANDOFF);
      if !ok {
        return;
      }
      ok := DropBoundingExtras(extraBounding, first);
      assert ok;
      ok := DropPermittedExtras(extraPermitted, first);
      assert ok;
      assert first.permitted - extraPermitted == HANDOFF;
      assert first.bounding - extraBounding == first.bounding * HANDOFF;
      ok := SetAmbient(HANDOFF, first);
    }
  }
}
