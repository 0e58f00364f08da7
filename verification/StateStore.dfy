/**
 The directory of container state files.  A state is written to a temporary file,
 synced and renamed into place; any operation may stop half way, by an error or a
 crash.  A reference is resolved against a listing that comes in no particular order.
 */
module StateStore {
  import opened Common

  /** A container state: the fields that name it, and the others. */
  datatype Record = Record(id: string, name: string, rest: string)

  /** Serialisation, left open but for its round trip. */
  datatype Codec = Codec(encode: Record -> string, decode: string -> Option<Record>)

  ghost predicate Faithful(codec: Codec) {
    forall r :: codec.decode(codec.encode(r)) == Some(r)
  }

  type Files = map<string, string>

  // ---------- file names ----------

  predicate ValidIdChar(c: char) {
    'a' <= c <= 'z' || 'A' <= c <= 'Z' || '0' <= c <= '9' || c == '-' || c == '_'
  }

  predicate ValidId(id: string) {
    id != [] && forall i :: 0 <= i < |id| ==> ValidIdChar(id[i])
  }

  datatype Kind = StateFile | TempFile | ExecFifo | OverlayDir

  function Suffix(k: Kind): string {
    match k
    case StateFile => ".json"
    case TempFile => ".json.tmp"
    case ExecFifo => ".exec"
    case OverlayDir => ".rootfs-overlay"
  }

  function PathOf(k: Kind, id: string): string {
    id + Suffix(k)
  }

  lemma SuffixesDiffer(k: Kind, l: Kind)
    ensures Suffix(k)[0] == '.'
    ensures Suffix(k) == Suffix(l) ==> k == l
  {
    assert Suffix(StateFile)[1] == 'j' && Suffix(TempFile)[1] == 'j';
    assert Suffix(ExecFifo)[1] == 'e' && Suffix(OverlayDir)[1] == 'r';
    assert |Suffix(StateFile)| == 5 && |Suffix(TempFile)| == 9;
  }

  lemma {:induction false} SameStem(a: string, b: string, s: string, t: string)
    requires '.' !in a && '.' !in b && s != [] && t != [] && s[0] == '.' && t[0] == '.'
    requires a + s == b + t
    ensures a == b && s == t
  {
    assert (a + s)[0] == if a == [] then s[0] else a[0];
    assert (b + t)[0] == if b == [] then t[0] else b[0];
    if a != [] && b != [] {
      assert a[1..] + s == (a + s)[1..] && b[1..] + t == (b + t)[1..];
      SameStem(a[1..], b[1..], s, t);
      assert a == [a[0]] + a[1..] && b == [b[0]] + b[1..];
    } else {
      assert a == [] && b == [];
      assert a + s == s && b + t == t;
    }
  }

  /** State, temporary, FIFO and overlay paths of valid ids never collide. */
  lemma PathsNeverCollide(k: Kind, a: string, l: Kind, b: string)
    requires ValidId(a) && ValidId(b) && PathOf(k, a) == PathOf(l, b)
    ensures k == l && a == b
  {
    SuffixesDiffer(k, l);
    SuffixesDiffer(l, k);
    SameStem(a, b, Suffix(k), Suffix(l));
  }

  /** The names, written out. */
  lemma PathExamples()
    ensures PathOf(StateFile, "a-1") == "a-1.json" && PathOf(TempFile, "a-1") == "a-1.json.tmp"
    ensures PathOf(ExecFifo, "a-1") == "a-1.exec" && PathOf(OverlayDir, "a-1") == "a-1.rootfs-overlay"
    ensures HasJsonExtension("a.json") && !HasJsonExtension(".json") && !HasJsonExtension("a.json.tmp")
    ensures ValidId("aZ09-_") && !ValidId("") && !ValidId("a.b") && !ValidId("a/b") && !ValidId("a b")
  {
    assert "a.b"[1] == '.' && "a/b"[1] == '/' && "a b"[1] == ' ';
    assert "a.json"[1..] == ".json" && "a.json.tmp"[5..] == "n.tmp";
  }

  /** The extension is what follows the last dot, unless nothing precedes it. */
  predicate HasJsonExtension(name: string) {
    |name| > 5 && name[|name| - 5..] == ".json"
  }

  function Stem(name: string): string
    requires HasJsonExtension(name)
  {
    name[..|name| - 5]
  }

  lemma JsonNames(id: string)
    requires ValidId(id)
    ensures HasJsonExtension(PathOf(StateFile, id)) && Stem(PathOf(StateFile, id)) == id
    ensures !HasJsonExtension(PathOf(TempFile, id))
    ensures !HasJsonExtension(PathOf(ExecFifo, id))
    ensures !HasJsonExtension(PathOf(OverlayDir, id))
  {
    var s, t, f, o := PathOf(StateFile, id), PathOf(TempFile, id), PathOf(ExecFifo, id), PathOf(OverlayDir, id);
    assert s[|s| - 5..] == ".json";
    assert s[..|s| - 5] == id;
    var json := ".json";
    assert t[|t| - 5..][4] == 'p' && json[4] == 'n';
    assert f[|f| - 5..][4] == 'c';
    assert o[|o| - 5..][4] == 'y';
  }

  // ---------- operations, each cut off anywhere ----------

  /** Where a save stops; an unsynced temporary file may be left with any content. */
  datatype Stop = AtOpen | AtWrite(left: string) | AtRename | Never

  class Store {
    const codec: Codec
    var files: Files

    constructor (codec: Codec)
      ensures this.codec == codec && files == map[]
    {
      this.codec := codec;
      files := map[];
    }

    method SaveState(state: Record, stop: Stop) returns (saved: bool)
      modifies this
      ensures files == Apply(codec, old(files), Save(state, stop))
      ensures saved <==> ValidId(state.id) && stop.Never?
    {
      if !ValidId(state.id) {
        return false;
      }
      var path := PathOf(StateFile, state.id);
      var tmp := PathOf(TempFile, state.id);
      var json := codec.encode(state);
      if stop.AtOpen? {
        return false;
      }
      files := files[tmp := []];
      if stop.AtWrite? {
        files := files[tmp := stop.left];
        return false;
      }
      files := files[tmp := json];
      if stop.AtRename? {
        return false;
      }
      files := files[path := files[tmp]] - {tmp};
      saved := true;
    }

    method DeleteState(id: string, stop: bool) returns (ok: bool)
      modifies this
      ensures files == Apply(codec, old(files), Delete(id, stop))
      ensures ok <==> ValidId(id) && !stop
    {
      if !ValidId(id) || stop {
        return false;
      }
      files := files - {PathOf(StateFile, id)};
      ok := true;
    }

    method LoadState(id: string) returns (r: Option<Record>)
      ensures r == if ValidId(id) then Visible(codec, files, id) else None
    {
      if !ValidId(id) || PathOf(StateFile, id) !in files {
        return None;
      }
      r := codec.decode(files[PathOf(StateFile, id)]);
    }

    /** Lists the states, the directory's entries coming in the order `entries`. */
    method ListStates(entries: seq<string>) returns (states: seq<Record>)
      requires Enumerates(entries, files.Keys)
      ensures Sound(codec, files) ==> IsListing(codec, files, states)
      ensures forall r :: r in states <==>
                exists i :: 0 <= i < |entries| && HasJsonExtension(entries[i]) && codec.decode(files[entries[i]]) == Some(r)
    {
      states := [];
      ghost var from: seq<nat> := [];
      for i := 0 to |entries|
        invariant Sound(codec, files) ==> ListedUpTo(codec, files, entries, i, states, from)
        invariant forall r :: r in states <==>
                    exists j :: 0 <= j < i && HasJsonExtension(entries[j]) && codec.decode(files[entries[j]]) == Some(r)
      {
        var path := entries[i];
        assert path in files;
        if HasJsonExtension(path) {
          ghost var before := states;
          match codec.decode(files[path]) {
            case Some(state) =>
              states := states + [state];
              if Sound(codec, files) {
                ListOne(codec, files, entries, i, before, from, state);
              }
              from := from + [i];
            case None =>
          }
        }
      }
      if Sound(codec, files) {
        ListedAll(codec, files, entries, states, from);
      }
    }
  }

  // ---------- the same operations as functions ----------

  /** `Touch` stands for whatever else lives in the directory. */
  datatype Op = Save(state: Record, stop: Stop) | Delete(id: string, fails: bool) | Touch(name: string, content: string)

  function Apply(codec: Codec, files: Files, op: Op): Files {
    match op
    case Save(state, stop) =>
      if !ValidId(state.id) then files
      else
        var tmp := PathOf(TempFile, state.id);
        (match stop
         case AtOpen => files
         case AtWrite(left) => files[tmp := left]
         case AtRename => files[tmp := codec.encode(state)]
         case Never => files[PathOf(StateFile, state.id) := codec.encode(state)] - {tmp})
    case Delete(id, fails) => if ValidId(id) && !fails then files - {PathOf(StateFile, id)} else files
    case Touch(name, content) => if HasJsonExtension(name) then files else files[name := content]
  }

  function ApplyAll(codec: Codec, files: Files, ops: seq<Op>): Files {
    if ops == [] then files else Apply(codec, ApplyAll(codec, files, ops[..|ops| - 1]), ops[|ops| - 1])
  }

  /** The state a reader of an id sees. */
  function Visible(codec: Codec, files: Files, id: string): Option<Record> {
    if PathOf(StateFile, id) in files then codec.decode(files[PathOf(StateFile, id)]) else None
  }

  /** The file is the complete state of the id in its name. */
  predicate Complete(codec: Codec, files: Files, name: string)
    requires name in files && HasJsonExtension(name)
  {
    var r := codec.decode(files[name]);
    ValidId(Stem(name)) && r.Some? && r.value.id == Stem(name) && files[name] == codec.encode(r.value)
  }

  /** So is every file that a listing would read. */
  predicate Sound(codec: Codec, files: Files) {
    forall name <- files :: HasJsonExtension(name) ==> Complete(codec, files, name)
  }

  lemma SaveKeepsSound(codec: Codec, files: Files, state: Record, stop: Stop, name: string)
    requires Faithful(codec) && Sound(codec, files) && HasJsonExtension(name)
    requires name in Apply(codec, files, Save(state, stop))
    ensures Complete(codec, Apply(codec, files, Save(state, stop)), name)
  {
    if ValidId(state.id) {
      JsonNames(state.id);
      if !stop.Never? || name != PathOf(StateFile, state.id) {
        assert name in files && Complete(codec, files, name);
      }
    }
  }

  lemma ApplyKeepsSound(codec: Codec, files: Files, op: Op)
    requires Faithful(codec) && Sound(codec, files)
    ensures Sound(codec, Apply(codec, files, op))
  {
    if op.Save? {
      forall name | name in Apply(codec, files, op) && HasJsonExtension(name)
        ensures Complete(codec, Apply(codec, files, op), name)
      {
        SaveKeepsSound(codec, files, op.state, op.stop, name);
      }
    }
  }

  /** After any operations, each cut off anywhere, no partly written state is ever visible. */
  lemma {:induction false} AlwaysSound(codec: Codec, ops: seq<Op>)
    requires Faithful(codec)
    ensures Sound(codec, ApplyAll(codec, map[], ops))
  {
    if ops != [] {
      AlwaysSound(codec, ops[..|ops| - 1]);
      ApplyKeepsSound(codec, ApplyAll(codec, map[], ops[..|ops| - 1]), ops[|ops| - 1]);
    }
  }

  /** A finished save leaves its own state, no temporary file, and everything else as it was. */
  lemma SaveIsTidy(codec: Codec, files: Files, state: Record)
    requires ValidId(state.id)
    ensures var path, tmp := state.id + ".json", state.id + ".json.tmp";
            var after := Apply(codec, files, Save(state, Never));
            && path in after && after[path] == codec.encode(state) && tmp !in after
            && forall name :: name != path && name != tmp ==>
                 (name in after <==> name in files) && (name in files ==> after[name] == files[name])
  {
    assert |state.id + ".json"| != |state.id + ".json.tmp"|;
  }

  /** A save that stops early leaves everything but its temporary file as it was. */
  lemma StoppedSaveIsHarmless(codec: Codec, files: Files, state: Record, stop: Stop)
    requires !stop.Never? || !ValidId(state.id)
    ensures var after := Apply(codec, files, Save(state, stop));
            forall name :: name != state.id + ".json.tmp" ==>
              (name in after <==> name in files) && (name in files ==> after[name] == files[name])
  {
  }

  /** What an operation is to make of an id, if it runs to its end. */
  function Intended(op: Op, id: string, before: Option<Record>): Option<Record> {
    match op
    case Save(state, _) => if state.id == id then Some(state) else before
    case Delete(target, _) => if target == id then None else before
    case Touch(_, _) => before
  }

  predicate Finishes(op: Op) {
    match op
    case Save(_, stop) => stop.Never?
    case Delete(_, fails) => !fails
    case Touch(_, _) => true
  }

  lemma DistinctStatePaths(a: string, b: string)
    requires ValidId(a) && ValidId(b)
    ensures PathOf(StateFile, a) == PathOf(StateFile, b) <==> a == b
    ensures PathOf(StateFile, a) != PathOf(TempFile, b)
  {
    if PathOf(StateFile, a) == PathOf(StateFile, b) {
      PathsNeverCollide(StateFile, a, StateFile, b);
    }
    if PathOf(StateFile, a) == PathOf(TempFile, b) {
      PathsNeverCollide(StateFile, a, TempFile, b);
    }
  }

  /** What changes elsewhere does not change what is visible. */
  lemma VisibleAt(codec: Codec, files: Files, after: Files, id: string)
    requires var path := PathOf(StateFile, id);
             (path in files <==> path in after) && (path in files ==> files[path] == after[path])
    ensures Visible(codec, files, id) == Visible(codec, after, id)
  {
  }

  lemma SaveIsOldOrNew(codec: Codec, files: Files, state: Record, stop: Stop, id: string)
    requires Faithful(codec) && ValidId(id)
    ensures Visible(codec, Apply(codec, files, Save(state, stop)), id) ==
            if stop.Never? && state.id == id then Some(state) else Visible(codec, files, id)
  {
    if ValidId(state.id) {
      DistinctStatePaths(id, state.id);
      var after := Apply(codec, files, Save(state, stop));
      if stop.Never? && state.id == id {
        assert after[PathOf(StateFile, id)] == codec.encode(state);
      } else {
        VisibleAt(codec, files, after, id);
      }
    }
  }

  lemma DeleteIsOldOrNew(codec: Codec, files: Files, target: string, fails: bool, id: string)
    requires ValidId(id)
    ensures Visible(codec, Apply(codec, files, Delete(target, fails)), id) ==
            if !fails && target == id then None else Visible(codec, files, id)
  {
    if ValidId(target) {
      DistinctStatePaths(id, target);
      if fails || target != id {
        VisibleAt(codec, files, Apply(codec, files, Delete(target, fails)), id);
      }
    }
  }

  /** An operation takes effect in full or not at all, and only on its own id. */
  lemma OldOrNew(codec: Codec, files: Files, op: Op, id: string)
    requires Faithful(codec) && ValidId(id)
    ensures Visible(codec, Apply(codec, files, op), id) ==
            if Finishes(op) then Intended(op, id, Visible(codec, files, id)) else Visible(codec, files, id)
  {
    match op {
      case Save(state, stop) => SaveIsOldOrNew(codec, files, state, stop, id);
      case Delete(target, fails) => DeleteIsOldOrNew(codec, files, target, fails, id);
      case Touch(name, content) =>
        JsonNames(id);
        VisibleAt(codec, files, Apply(codec, files, op), id);
    }
  }

  /** What a history leaves for an id, if only its finished operations count. */
  function Replayed(ops: seq<Op>, id: string): Option<Record> {
    if ops == [] then None
    else
      var before := Replayed(ops[..|ops| - 1], id);
      if Finishes(ops[|ops| - 1]) then Intended(ops[|ops| - 1], id, before) else before
  }

  /** After any history, an id shows the effect of the operations that finished, and no trace of the others. */
  lemma {:induction false} VisibleIsReplayed(codec: Codec, ops: seq<Op>, id: string)
    requires Faithful(codec) && ValidId(id)
    ensures Visible(codec, ApplyAll(codec, map[], ops), id) == Replayed(ops, id)
  {
    if ops != [] {
      VisibleIsReplayed(codec, ops[..|ops| - 1], id);
      OldOrNew(codec, ApplyAll(codec, map[], ops[..|ops| - 1]), ops[|ops| - 1], id);
    }
  }

  // ---------- listing ----------

  predicate Enumerates(entries: seq<string>, names: set<string>) {
    && (forall i, j :: 0 <= i < j < |entries| ==> entries[i] != entries[j])
    && (forall e <- entries :: e in names)
    && (forall n <- names :: n in entries)
  }

  predicate DistinctIds(states: seq<Record>) {
    forall i, j :: 0 <= i < j < |states| ==> states[i].id != states[j].id
  }

  /** Each visible state once. */
  ghost predicate IsListing(codec: Codec, files: Files, states: seq<Record>) {
    && DistinctIds(states)
    && forall r :: r in states <==> ValidId(r.id) && Visible(codec, files, r.id) == Some(r)
  }

  /** `from[k]` is the entry the `k`th state was read from. */
  ghost predicate ListedUpTo(codec: Codec, files: Files, entries: seq<string>, n: nat, states: seq<Record>, from: seq<nat>) {
    && |from| == |states|
    && (forall k :: 0 <= k < |from| ==> from[k] < n && from[k] < |entries| && entries[from[k]] == PathOf(StateFile, states[k].id))
    && (forall k :: 0 <= k < |from| ==> ValidId(states[k].id) && Visible(codec, files, states[k].id) == Some(states[k]))
    && (forall k, l :: 0 <= k < l < |from| ==> from[k] < from[l])
    && (forall i :: 0 <= i < n && i < |entries| && HasJsonExtension(entries[i]) ==> i in from)
  }

  lemma ListOne(codec: Codec, files: Files, entries: seq<string>, n: nat, states: seq<Record>, from: seq<nat>, state: Record)
    requires Sound(codec, files) && ListedUpTo(codec, files, entries, n, states, from)
    requires n < |entries| && HasJsonExtension(entries[n]) && entries[n] in files
    requires codec.decode(files[entries[n]]) == Some(state)
    ensures ListedUpTo(codec, files, entries, n + 1, states + [state], from + [n])
  {
    assert Complete(codec, files, entries[n]);
    assert entries[n] == PathOf(StateFile, state.id);
    assert (from + [n])[|from|] == n;
  }

  lemma ListedAll(codec: Codec, files: Files, entries: seq<string>, states: seq<Record>, from: seq<nat>)
    requires Sound(codec, files) && Enumerates(entries, files.Keys)
    requires ListedUpTo(codec, files, entries, |entries|, states, from)
    ensures IsListing(codec, files, states)
  {
    forall i, j | 0 <= i < j < |states| ensures states[i].id != states[j].id {
      assert entries[from[i]] != entries[from[j]];
    }
    forall r: Record | ValidId(r.id) && Visible(codec, files, r.id) == Some(r) ensures r in states {
      var path := PathOf(StateFile, r.id);
      JsonNames(r.id);
      assert path in entries;
      var i :| 0 <= i < |entries| && entries[i] == path;
      var k :| 0 <= k < |from| && from[k] == i;
      JsonNames(states[k].id);
    }
  }

  // ---------- resolving a reference ----------

  datatype Resolution = Found(state: Record) | NotFound | Ambiguous

  function Filter(states: seq<Record>, p: Record -> bool): (r: seq<Record>)
    ensures forall s :: s in r <==> s in states && p(s)
  {
    if states == [] then []
    else if p(states[0]) then [states[0]] + Filter(states[1..], p)
    else Filter(states[1..], p)
  }

  /** Exact id, then name, then id prefix. */
  function ResolveContainer(states: seq<Record>, reference: string): Resolution {
    var ids := Filter(states, HasId(reference));
    if |ids| > 0 then Found(ids[0])
    else
      var names := Filter(states, HasName(reference));
      if |names| == 1 then Found(names[0])
      else if |names| > 1 then Ambiguous
      else
        var prefixes := Filter(states, HasPrefix(reference));
        if |prefixes| == 0 then NotFound
        else if |prefixes| == 1 then Found(prefixes[0])
        else Ambiguous
  }

  function Elements(states: seq<Record>): set<Record> {
    set s <- states
  }

  function HasId(reference: string): Record -> bool {
    (s: Record) => s.id == reference
  }

  function HasName(reference: string): Record -> bool {
    (s: Record) => s.name == reference
  }

  function HasPrefix(reference: string): Record -> bool {
    (s: Record) => reference <= s.id
  }

  predicate NoId(states: set<Record>, reference: string) {
    forall t <- states :: t.id != reference
  }

  predicate NoName(states: set<Record>, reference: string) {
    forall t <- states :: t.name != reference
  }

  predicate StartsWith(id: string, reference: string) {
    |reference| <= |id| && forall i :: 0 <= i < |reference| ==> id[i] == reference[i]
  }

  /** What a reference means in a set of states, whatever order they are listed in. */
  predicate Means(states: set<Record>, reference: string, r: Resolution) {
    match r
    case Found(s) =>
      && s in states
      && (|| s.id == reference
          || (NoId(states, reference) && s.name == reference && forall t <- states :: t.name == reference ==> t == s)
          || (NoId(states, reference) && NoName(states, reference) && StartsWith(s.id, reference)
              && forall t <- states :: StartsWith(t.id, reference) ==> t == s))
    case Ambiguous =>
      && NoId(states, reference)
      && (|| (exists s <- states, t <- states :: s != t && s.name == reference && t.name == reference)
          || (NoName(states, reference)
              && exists s <- states, t <- states :: s != t && StartsWith(s.id, reference) && StartsWith(t.id, reference)))
    case NotFound =>
      NoId(states, reference) && NoName(states, reference) && forall t <- states :: !StartsWith(t.id, reference)
  }

  predicate OneIdEach(states: set<Record>) {
    forall s <- states, t <- states :: s.id == t.id ==> s == t
  }

  /** A reference has at most one meaning. */
  lemma MeaningIsUnique(states: set<Record>, reference: string, r: Resolution, q: Resolution)
    requires OneIdEach(states) && Means(states, reference, r) && Means(states, reference, q)
    ensures r == q
  {
  }

  lemma {:induction false} FilterKeepsDistinct(states: seq<Record>, p: Record -> bool)
    requires DistinctIds(states)
    ensures DistinctIds(Filter(states, p))
  {
    if states != [] {
      var rest := states[1..];
      FilterKeepsDistinct(rest, p);
      forall t | t in Filter(rest, p) ensures t.id != states[0].id {
        var k :| 0 <= k < |rest| && rest[k] == t;
        assert states[k + 1] == t;
      }
    }
  }

  /** How many pass a filter says how many there are. */
  lemma FilterCounts(states: seq<Record>, p: Record -> bool)
    requires DistinctIds(states)
    ensures var all, passed := Elements(states), Filter(states, p);
            && (|passed| == 0 ==> forall t <- all :: !p(t))
            && (|passed| > 0 ==> passed[0] in all && p(passed[0]))
            && (|passed| == 1 ==> forall t <- all :: p(t) ==> t == passed[0])
            && (|passed| > 1 ==> passed[1] in all && p(passed[1]) && passed[0] != passed[1])
  {
    FilterKeepsDistinct(states, p);
    var all, passed := Elements(states), Filter(states, p);
    assert |passed| > 0 ==> passed[0] in passed;
    assert |passed| > 1 ==> passed[1] in passed;
    forall t | t in all && p(t) ensures t in passed {
    }
  }

  lemma PrefixIsStart(id: string, reference: string)
    ensures reference <= id <==> StartsWith(id, reference)
  {
  }

  /** The resolution is the meaning. */
  lemma ResolutionIsMeaning(states: seq<Record>, reference: string)
    requires DistinctIds(states)
    ensures Means(Elements(states), reference, ResolveContainer(states, reference))
  {
    forall s: Record ensures HasPrefix(reference)(s) <==> StartsWith(s.id, reference) {
      PrefixIsStart(s.id, reference);
    }
    FilterCounts(states, HasId(reference));
    FilterCounts(states, HasName(reference));
    FilterCounts(states, HasPrefix(reference));
    if ResolveContainer(states, reference).Ambiguous? {
      var names, prefixes := Filter(states, HasName(reference)), Filter(states, HasPrefix(reference));
      if |names| > 1 {
        assert names[0] != names[1];
      } else {
        assert prefixes[0] != prefixes[1];
      }
    }
  }

  /** So it does not depend on the order in which the directory is read. */
  lemma ResolutionIgnoresOrder(codec: Codec, files: Files, one: seq<Record>, other: seq<Record>, reference: string)
    requires IsListing(codec, files, one) && IsListing(codec, files, other)
    ensures ResolveContainer(one, reference) == ResolveContainer(other, reference)
  {
    var states := Elements(one);
    assert states == Elements(other);
    assert OneIdEach(states) by {
      forall s, t | s in states && t in states && s.id == t.id ensures s == t {
        var i :| 0 <= i < |one| && one[i] == s;
        var j :| 0 <= j < |one| && one[j] == t;
        assert i == j;
      }
    }
    ResolutionIsMeaning(one, reference);
    ResolutionIsMeaning(other, reference);
    MeaningIsUnique(states, reference, ResolveContainer(one, reference), ResolveContainer(other, reference));
  }
}
