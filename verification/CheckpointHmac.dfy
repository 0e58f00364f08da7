/**
 Writing and verifying the authentication code of a checkpoint directory: a
 hand-assembled HMAC (section 2 of RFC 2104) over the checkpoint stream, stored
 as hexadecimal text in a file of the directory itself.
 */
module CheckpointHmac {
  import opened Common
  import opened FileTree
  import opened Hashing
  import opened PathText
  import opened CheckpointStream

  const BLOCK_SIZE := 64
  const DIGEST_SIZE := 32
  const INNER_PAD: byte := 0x36
  const OUTER_PAD: byte := 0x5C
  const PRIVATE_MODE := 0x180  // owner may read and write

  // "checkpoint.hmac.tmp"
  const HMAC_TEMP: Name := HMAC_FILE + [46, 116, 109, 112]

  ghost predicate FixedSize(hash: HashFunction) {
    forall m :: |hash(m)| == DIGEST_SIZE
  }

  // ---------- RFC 2104 ----------

  function Xor(a: byte, b: byte): byte {
    ((a as bv8) ^ (b as bv8)) as byte
  }

  function Zeros(n: nat): (r: seq<byte>)
    ensures |r| == n
  {
    seq(n, _ => 0)
  }

  /** The key, hashed first if longer than a block, zero-padded to a block. */
  function KeyBlock(hash: HashFunction, key: seq<byte>): (r: seq<byte>)
    requires |hash(key)| == DIGEST_SIZE
    ensures |r| == BLOCK_SIZE
  {
    var k := if |key| > BLOCK_SIZE then hash(key) else key;
    k + Zeros(BLOCK_SIZE - |k|)
  }

  function Masked(block: seq<byte>, pad: byte): (r: seq<byte>)
    ensures |r| == |block|
  {
    seq(|block|, i requires 0 <= i < |block| => Xor(pad, block[i]))
  }

  function InnerMessage(hash: HashFunction, key: seq<byte>, text: seq<byte>): seq<byte>
    requires |hash(key)| == DIGEST_SIZE
  {
    Masked(KeyBlock(hash, key), INNER_PAD) + text
  }

  function OuterMessage(hash: HashFunction, key: seq<byte>, text: seq<byte>): seq<byte>
    requires |hash(key)| == DIGEST_SIZE
  {
    Masked(KeyBlock(hash, key), OUTER_PAD) + hash(InnerMessage(hash, key, text))
  }

  function Hmac(hash: HashFunction, key: seq<byte>, text: seq<byte>): seq<byte>
    requires |hash(key)| == DIGEST_SIZE
  {
    hash(OuterMessage(hash, key, text))
  }

  /** Different texts have different codes, unless the hash collides on the spot. */
  lemma HmacSeparates(hash: HashFunction, key: seq<byte>, a: seq<byte>, b: seq<byte>)
    requires |hash(key)| == DIGEST_SIZE && Hmac(hash, key, a) == Hmac(hash, key, b)
    ensures
      || a == b
      || Collides(hash, InnerMessage(hash, key, a), InnerMessage(hash, key, b))
      || Collides(hash, OuterMessage(hash, key, a), OuterMessage(hash, key, b))
  {
    var im, om := Masked(KeyBlock(hash, key), INNER_PAD), Masked(KeyBlock(hash, key), OUTER_PAD);
    assert (im + a)[BLOCK_SIZE..] == a && (im + b)[BLOCK_SIZE..] == b;
    var ha, hb := hash(im + a), hash(im + b);
    assert (om + ha)[BLOCK_SIZE..] == ha && (om + hb)[BLOCK_SIZE..] == hb;
  }

  /** Bit by bit. */
  lemma XorMeans(a: byte, b: byte)
    ensures Xor(a, b) as bv8 == (a as bv8) ^ (b as bv8)
  {
  }

  /** The key bytes, then zeros, 64 in all, each xor'ed with the pad. */
  predicate Padded(k: seq<byte>, pad: byte, r: seq<byte>) {
    |k| <= 64 && |r| == 64 &&
    forall i :: 0 <= i < 64 ==> r[i] == Xor(pad, if i < |k| then k[i] else 0)
  }

  /**
   The code is the one of section 2 of RFC 2104: a key of up to 64 bytes is padded with
   zeros, a longer one is hashed first; the inner pad is 0x36 and the outer one 0x5C.
   */
  lemma HmacIsRfc2104(hash: HashFunction, key: seq<byte>, text: seq<byte>, inner: seq<byte>, outer: seq<byte>)
    requires |hash(key)| == 32
    requires var k := if |key| <= 64 then key else hash(key);
             Padded(k, 0x36, inner) && Padded(k, 0x5C, outer)
    ensures Hmac(hash, key, text) == hash(outer + hash(inner + text))
  {
    assert inner == Masked(KeyBlock(hash, key), INNER_PAD);
    assert outer == Masked(KeyBlock(hash, key), OUTER_PAD);
  }

  // ---------- text form ----------

  function HexDigit(n: nat): byte
    requires n < 16
  {
    (if n < 10 then 48 + n else 87 + n) as byte
  }

  function Hex(b: seq<byte>): (r: seq<byte>)
    ensures |r| == 2 * |b|
  {
    if b == [] then [] else [HexDigit(b[0] as nat / 16), HexDigit(b[0] as nat % 16)] + Hex(b[1..])
  }

  predicate HexText(c: byte) {
    48 <= c < 58 || 97 <= c < 103
  }

  lemma {:induction false} HexIsText(b: seq<byte>)
    ensures forall i :: 0 <= i < |Hex(b)| ==> HexText(Hex(b)[i])
  {
    if b != [] {
      HexIsText(b[1..]);
    }
  }

  /** The value of a hexadecimal digit, in lower case. */
  function Nibble(c: byte): nat {
    if 48 <= c < 58 then c as nat - 48 else if 97 <= c < 103 then c as nat - 87 else 16
  }

  /** Two digits a byte, the high one first. */
  lemma {:induction false} HexMeans(b: seq<byte>, i: nat)
    requires i < |b|
    ensures Nibble(Hex(b)[2 * i]) < 16 && Nibble(Hex(b)[2 * i + 1]) < 16
    ensures 16 * Nibble(Hex(b)[2 * i]) + Nibble(Hex(b)[2 * i + 1]) == b[i] as nat
  {
    if i > 0 {
      HexMeans(b[1..], i - 1);
      assert Hex(b)[2..] == Hex(b[1..]);
      assert Hex(b)[2 * i] == Hex(b)[2..][2 * (i - 1)] && Hex(b)[2 * i + 1] == Hex(b)[2..][2 * (i - 1) + 1];
    }
  }

  lemma {:induction false} HexInjective(a: seq<byte>, b: seq<byte>)
    requires Hex(a) == Hex(b)
    ensures a == b
  {
    if a != [] && b != [] {
      assert Hex(a)[0] == Hex(b)[0] && Hex(a)[1] == Hex(b)[1];
      assert Hex(a)[2..] == Hex(a[1..]) && Hex(b)[2..] == Hex(b[1..]);
      HexInjective(a[1..], b[1..]);
      assert a == [a[0]] + a[1..] && b == [b[0]] + b[1..];
    }
  }

  /** Length of the white-space character that UTF-8 text starts with, or 0. */
  function WhiteUnit(s: seq<byte>): (n: nat)
    ensures n <= |s| && n <= 3
  {
    if |s| >= 1 && s[0] < 0x80 && IsWhiteSpace(s[0] as int) then 1
    else if |s| >= 2 && 0xC2 <= s[0] < 0xE0 && Continuation(s[1])
            && IsWhiteSpace((s[0] as int - 0xC0) * 0x40 + (s[1] as int - 0x80)) then 2
    else if |s| >= 3 && 0xE0 <= s[0] < 0xF0 && Continuation(s[1]) && Continuation(s[2])
            && IsWhiteSpace((s[0] as int - 0xE0) * 0x1000 + (s[1] as int - 0x80) * 0x40 + (s[2] as int - 0x80)) then 3
    else 0
  }

  /** The encoding of a code point of up to 16 bits. */
  function Encoded(n: nat): seq<byte>
    requires n < 0x10000
  {
    if n < 0x80 then [n as byte]
    else if n < 0x800 then [(0xC0 + n / 0x40) as byte, (0x80 + n % 0x40) as byte]
    else [(0xE0 + n / 0x1000) as byte, (0x80 + n / 0x40 % 0x40) as byte, (0x80 + n % 0x40) as byte]
  }

  lemma WhiteTwoBytes(n: nat, s: seq<byte>)
    requires 0x80 <= n < 0x800 && |s| >= 2 && s[0] as int == 0xC0 + n / 0x40 && s[1] as int == 0x80 + n % 0x40
    ensures WhiteUnit(s) == if IsWhiteSpace(n) then 2 else 0
  {
    assert n == (s[0] as int - 0xC0) * 0x40 + (s[1] as int - 0x80);
  }

  lemma WhiteThreeBytes(n: nat, s: seq<byte>, high: nat, mid: nat, low: nat)
    requires 0x800 <= n < 0x10000 && high == n / 0x1000 && mid == n / 0x40 % 0x40 && low == n % 0x40
    requires |s| >= 3 && s[0] as int == 0xE0 + high && s[1] as int == 0x80 + mid && s[2] as int == 0x80 + low
    ensures WhiteUnit(s) == if IsWhiteSpace(n) then 3 else 0
  {
    assert n == high * 0x1000 + mid * 0x40 + low;
  }

  /** A character at the start of a text counts as white space exactly if its code point does. */
  lemma WhiteUnitMeans(n: nat, rest: seq<byte>)
    requires n < 0x10000
    ensures WhiteUnit(Encoded(n) + rest) == if IsWhiteSpace(n) then |Encoded(n)| else 0
  {
    var s := Encoded(n) + rest;
    if n < 0x80 {
      assert s[0] as int == n;
    } else if n < 0x800 {
      WhiteTwoBytes(n, s);
    } else {
      WhiteThreeBytes(n, s, n / 0x1000, n / 0x40 % 0x40, n % 0x40);
    }
  }

  /** Length of the white-space character that UTF-8 text ends with, or 0. */
  function WhiteEnd(s: seq<byte>): (n: nat)
    ensures n <= |s| && n <= 3
  {
    if |s| >= 1 && WhiteUnit(s[|s| - 1..]) == 1 then 1
    else if |s| >= 2 && WhiteUnit(s[|s| - 2..]) == 2 then 2
    else if |s| >= 3 && WhiteUnit(s[|s| - 3..]) == 3 then 3
    else 0
  }

  function TrimStart(s: seq<byte>): seq<byte> {
    if WhiteUnit(s) > 0 then TrimStart(s[WhiteUnit(s)..]) else s
  }

  function TrimEnd(s: seq<byte>): seq<byte> {
    if WhiteEnd(s) > 0 then TrimEnd(s[..|s| - WhiteEnd(s)]) else s
  }

  function Trim(s: seq<byte>): seq<byte> {
    TrimEnd(TrimStart(s))
  }

  // ---------- computing the code ----------

  method Mask(block: array<byte>, pad: byte) returns (masked: array<byte>)
    requires block.Length == BLOCK_SIZE
    ensures fresh(masked) && masked[..] == Masked(block[..], pad)
  {
    masked := new byte[BLOCK_SIZE](_ => pad);
    for i := 0 to BLOCK_SIZE
      invariant forall k :: 0 <= k < i ==> masked[k] == Xor(pad, block[k])
      invariant forall k :: i <= k < BLOCK_SIZE ==> masked[k] == pad
    {
      masked[i] := Xor(masked[i], block[i]);
    }
  }

  method FillKeyBlock(hash: HashFunction, key: seq<byte>) returns (block: array<byte>)
    requires |hash(key)| == DIGEST_SIZE
    ensures fresh(block) && block[..] == KeyBlock(hash, key)
  {
    block := new byte[BLOCK_SIZE](_ => 0);
    var k := if |key| > BLOCK_SIZE then hash(key) else key;
    for i := 0 to |k|
      invariant forall j :: 0 <= j < i ==> block[j] == k[j]
      invariant forall j :: i <= j < BLOCK_SIZE ==> block[j] == 0
    {
      block[i] := k[i];
    }
  }

  method InnerDigest(v: Volume, hash: HashFunction, key: seq<byte>, ipad: seq<byte>) returns (ok: bool, digest: seq<byte>)
    requires WellFormed(v.nodes) && |hash(key)| == DIGEST_SIZE
    requires ipad == Masked(KeyBlock(hash, key), INNER_PAD)
    ensures ok ==> digest == hash(InnerMessage(hash, key, Stream(v.nodes)))
    ensures ok ==> ScannableBelow(Strip(v.nodes), [])
    ensures v.reliable && ScannableBelow(Strip(v.nodes), []) ==> ok
  {
    digest := [];
    var inner := new Hasher(hash);
    inner.Update(ipad);
    assert inner.absorbed == ipad;
    StripWellFormed(v.nodes);
    ok := UpdateDir(inner, v, Strip(v.nodes), []);
    if !ok { return; }
    digest := inner.Finalize();
  }

  method ComputeHmac(v: Volume, hash: HashFunction, key: seq<byte>) returns (ok: bool, code: seq<byte>)
    requires WellFormed(v.nodes) && |hash(key)| == DIGEST_SIZE
    ensures ok ==> code == Hex(Hmac(hash, key, Stream(v.nodes)))
    ensures ok ==> ScannableBelow(Strip(v.nodes), [])
    ensures v.reliable && ScannableBelow(Strip(v.nodes), []) ==> ok
  {
    code := [];
    var block := FillKeyBlock(hash, key);
    var ipad := Mask(block, INNER_PAD);
    var opad := Mask(block, OUTER_PAD);
    var innerDigest;
    ok, innerDigest := InnerDigest(v, hash, key, ipad[..]);
    if !ok { return; }
    var outer := new Hasher(hash);
    outer.Update(opad[..]);
    assert outer.absorbed == opad[..];
    outer.Update(innerDigest);
    var digest := outer.Finalize();
    code := Hex(digest);
  }

  // ---------- writing and verifying ----------

  /** The directory with any leftover temporary file gone. */
  function Tidied(t: Tree): Tree {
    Cut(t, [HMAC_TEMP])
  }

  /** Replacing the code's own file, or the leftover, does not change what is authenticated. */
  lemma StreamIgnoresOwnFile(t: Tree, e: Entry)
    ensures Strip(t[[HMAC_FILE] := e]) == Strip(t)
    ensures Tidied(t)[[HMAC_FILE] := e] == Tidied(Tidied(t)[[HMAC_FILE] := e])
  {
    TempIsAnotherName();
    assert [HMAC_TEMP][0] == HMAC_TEMP && [HMAC_FILE][0] == HMAC_FILE;
  }

  /** When writing the code can go through on a working filesystem. */
  ghost predicate Sealable(t: Tree) {
    && ([HMAC_TEMP] in t ==> !t[[HMAC_TEMP]].Link? && !t[[HMAC_TEMP]].Dir?)
    && ([HMAC_FILE] in t ==> !t[[HMAC_FILE]].Dir?)
    && ScannableBelow(Strip(Tidied(t)), [])
  }

  ghost function Sealed(t: Tree, hash: HashFunction, key: seq<byte>): Tree
    requires |hash(key)| == DIGEST_SIZE
  {
    Tidied(t)[[HMAC_FILE] := File(Hex(Hmac(hash, key, Stream(Tidied(t)))), PRIVATE_MODE)]
  }

  method RemoveLeftover(v: Volume) returns (ok: bool)
    requires WellFormed(v.nodes)
    modifies v`nodes
    ensures ok ==> v.nodes == Tidied(old(v.nodes)) && WellFormed(v.nodes)
    ensures ok ==> [HMAC_TEMP] !in v.nodes
    ensures ok ==> ([HMAC_TEMP] in old(v.nodes) ==> !old(v.nodes)[[HMAC_TEMP]].Link? && !old(v.nodes)[[HMAC_TEMP]].Dir?)
    ensures v.reliable && ([HMAC_TEMP] in old(v.nodes) ==> !old(v.nodes)[[HMAC_TEMP]].Link? && !old(v.nodes)[[HMAC_TEMP]].Dir?) ==> ok
  {
    var temp := [HMAC_TEMP];
    var seen := v.Outcome();
    if temp in v.nodes {
      if !seen { return false; }  // goes unnoticed here, and makes the exclusive create fail later
      // a link is refused; unlink(2) fails on a directory
      if v.nodes[temp].Link? || v.nodes[temp].Dir? { return false; }
      ok := v.Remove(temp);
    } else {
      CutAbsent(v.nodes, temp);
      ok := true;
    }
  }

  method WriteHmac(v: Volume, hash: HashFunction, key: seq<byte>) returns (ok: bool)
    requires WellFormed(v.nodes) && |hash(key)| == DIGEST_SIZE
    modifies v`nodes
    ensures ok ==> Sealable(old(v.nodes)) && WellFormed(v.nodes) && v.nodes == Sealed(old(v.nodes), hash, key)
    ensures v.reliable && Sealable(old(v.nodes)) ==> ok
  {
    ghost var was := v.nodes;
    ok := RemoveLeftover(v);
    if !ok { return; }
    var code;
    ok, code := ComputeHmac(v, hash, key);
    if !ok { return; }
    TempIsAnotherName();
    ok := Publish(v, HMAC_TEMP, HMAC_FILE, code);
    ghost var e := File(code, PRIVATE_MODE);
    StreamIgnoresOwnFile(was, e);
    assert [HMAC_FILE] in was <==> [HMAC_FILE] in Tidied(was);
  }

  /** Writes a file under a temporary name and renames it into place. */
  method Publish(v: Volume, temp: Name, final: Name, code: seq<byte>) returns (ok: bool)
    requires WellFormed(v.nodes) && [temp] !in v.nodes && temp != final
    modifies v`nodes
    ensures ok ==> ([final] in old(v.nodes) ==> !old(v.nodes)[[final]].Dir?)
    ensures v.reliable && ([final] in old(v.nodes) ==> !old(v.nodes)[[final]].Dir?) ==> ok
    ensures ok ==> WellFormed(v.nodes) && v.nodes == old(v.nodes)[[final] := File(code, PRIVATE_MODE)]
  {
    var from, to := [temp], [final];
    assert from[0] != to[0];
    ghost var was := v.nodes;
    NothingBelow(was, from);
    CutAbsent(was, from);
    ok := v.Put(from, File([], PRIVATE_MODE));
    if !ok { return; }
    NothingBelow(v.nodes, from);
    ok := v.Put(from, File(code, PRIVATE_MODE));
    if !ok { return; }
    CutForgets(was, from, File([], PRIVATE_MODE));
    CutForgets(was[from := File([], PRIVATE_MODE)], from, File(code, PRIVATE_MODE));
    assert IsDir(v.nodes, to) <==> IsDir(was, to);
    ok := v.Rename(from, to);
  }

  lemma TempIsAnotherName()
    ensures HMAC_TEMP != HMAC_FILE
  {
    assert |HMAC_TEMP| == |HMAC_FILE| + 4;
  }

  method VerifyHmac(v: Volume, hash: HashFunction, key: seq<byte>) returns (ok: bool)
    requires WellFormed(v.nodes) && |hash(key)| == DIGEST_SIZE
    ensures ok ==> Verifies(v.nodes, hash, key)
    ensures v.reliable && Verifies(v.nodes, hash, key) ==> ok
  {
    var path := [HMAC_FILE];
    if path !in v.nodes || !v.nodes[path].File? { return false; }
    ok := v.Outcome();
    if !ok { return; }
    if !ValidUtf8(v.nodes[path].content) { return false; }
    var expected := Trim(v.nodes[path].content);
    if expected == [] { return false; }
    var actual;
    ok, actual := ComputeHmac(v, hash, key);
    if !ok { return; }
    ok := actual == expected;
  }

  /** The stored text is the code of the directory around it. */
  ghost predicate Verifies(t: Tree, hash: HashFunction, key: seq<byte>)
    requires |hash(key)| == DIGEST_SIZE
  {
    && [HMAC_FILE] in t && t[[HMAC_FILE]].File?
    && ValidUtf8(t[[HMAC_FILE]].content)
    && Trim(t[[HMAC_FILE]].content) == Hex(Hmac(hash, key, Stream(t))) != []
    && ScannableBelow(Strip(t), [])
  }

  lemma TextIsNotTrimmed(s: seq<byte>)
    requires forall i :: 0 <= i < |s| ==> HexText(s[i])
    ensures WhiteUnit(s) == 0 && WhiteEnd(s) == 0 && Trim(s) == s
  {
    if s != [] {
      var last := s[|s| - 1];
      assert HexText(s[0]) && HexText(last);
      assert s[|s| - 1..] == [last];
      assert |s| >= 2 ==> s[|s| - 2..][1] == last;
      assert |s| >= 3 ==> s[|s| - 3..][2] == last;
    }
  }

  /** Hexadecimal text survives the reader's decoding and trimming. */
  lemma HexSurvivesReading(d: seq<byte>)
    ensures ValidUtf8(Hex(d)) && Trim(Hex(d)) == Hex(d)
  {
    HexIsText(d);
    AsciiIsUtf8(Hex(d));
    TextIsNotTrimmed(Hex(d));
  }

  /** A code wrapped in no-break spaces reads as the bare code. */
  lemma NoBreakSpaceIsTrimmed(d: seq<byte>)
    requires d != []
    ensures Trim([0xC2, 0xA0] + Hex(d) + [0xC2, 0xA0]) == Hex(d)
  {
    HexIsText(d);
    WrappedTextIsTrimmed(Hex(d));
  }

  lemma SpaceAtStartGoes(t: seq<byte>)
    requires t != [] && HexText(t[0])
    ensures TrimStart([0xC2, 0xA0] + t) == t
  {
    var s := [0xC2, 0xA0] + t;
    assert WhiteUnit(s) == 2 && s[2..] == t;
    assert TrimStart(t) == t;
  }

  lemma EndsInSpace(t: seq<byte>)
    requires |t| >= 2 && t[|t| - 2] == 0xC2 && t[|t| - 1] == 0xA0
    ensures WhiteEnd(t) == 2
  {
    assert WhiteUnit(t[|t| - 1..]) == 0;
    var two := t[|t| - 2..];
    assert two[0] == 0xC2 && two[1] == 0xA0;
    assert WhiteUnit(two) == 2;
  }

  lemma SpaceAtEndGoes(text: seq<byte>)
    requires WhiteEnd(text) == 0
    ensures TrimEnd(text + [0xC2, 0xA0]) == text
  {
    var t := text + [0xC2, 0xA0];
    EndsInSpace(t);
    assert t[..|t| - 2] == text;
  }

  lemma WrappedTextIsTrimmed(text: seq<byte>)
    requires text != [] && forall i :: 0 <= i < |text| ==> HexText(text[i])
    ensures Trim([0xC2, 0xA0] + text + [0xC2, 0xA0]) == text
  {
    var t := text + [0xC2, 0xA0];
    assert [0xC2, 0xA0] + text + [0xC2, 0xA0] == [0xC2, 0xA0] + t;
    assert t[0] == text[0];
    SpaceAtStartGoes(t);
    TextIsNotTrimmed(text);
    SpaceAtEndGoes(text);
  }

  /** The names and the mode, written out: a file of 0600 beside a temporary one. */
  lemma SealedFile(t: Tree, hash: HashFunction, key: seq<byte>)
    requires |hash(key)| == DIGEST_SIZE
    ensures var name := Bytes("checkpoint.hmac");
            && [name] in Sealed(t, hash, key)
            && Sealed(t, hash, key)[[name]].File? && Sealed(t, hash, key)[[name]].mode == 6 * 64
    ensures [Bytes("checkpoint.hmac.tmp")] !in Sealed(t, hash, key)
  {
    assert HMAC_FILE == Bytes("checkpoint.hmac");
    assert HMAC_TEMP == Bytes("checkpoint.hmac.tmp");
    assert [HMAC_TEMP] <= [HMAC_TEMP] && [HMAC_FILE][0] != [HMAC_TEMP][0];
  }

  /** What was sealed verifies, whatever stale files were around. */
  lemma SealedVerifies(t: Tree, hash: HashFunction, key: seq<byte>)
    requires Sealable(t) && FixedSize(hash)
    ensures Verifies(Sealed(t, hash, key), hash, key)
  {
    var code := Hex(Hmac(hash, key, Stream(Tidied(t))));
    StreamIgnoresOwnFile(Tidied(t), File(code, PRIVATE_MODE));
    HexSurvivesReading(Hmac(hash, key, Stream(Tidied(t))));
    assert |Hmac(hash, key, Stream(Tidied(t)))| == DIGEST_SIZE;
  }

  method WriteThenVerify(v: Volume, hash: HashFunction, key: seq<byte>) returns (written: bool, verified: bool)
    requires WellFormed(v.nodes) && FixedSize(hash)
    modifies v`nodes
    ensures v.reliable ==> (written <==> Sealable(old(v.nodes)))
    ensures v.reliable && written ==> verified
  {
    written, verified := false, false;
    if Sealable(v.nodes) {
      SealedVerifies(v.nodes, hash, key);
    }
    written := WriteHmac(v, hash, key);
    if written {
      verified := VerifyHmac(v, hash, key);
    }
  }

  /**
   A directory that carries the code written for another one verifies only if
   it holds the same files, or the hash collides on messages named here.
   */
  lemma TamperingIsDetected(original: Tree, found: Tree, hash: HashFunction, key: seq<byte>)
    requires |hash(key)| == DIGEST_SIZE
    requires WellFormed(original) && ValidPaths(original) && AllStorable(Strip(original))
    requires WellFormed(found) && ValidPaths(found) && AllStorable(Strip(found))
    requires Verifies(found, hash, key)
    requires Trim(found[[HMAC_FILE]].content) == Hex(Hmac(hash, key, Stream(original)))
    ensures
      || SameFiles(Strip(original), Strip(found))
      || Collides(hash, InnerMessage(hash, key, Stream(original)), InnerMessage(hash, key, Stream(found)))
      || Collides(hash, OuterMessage(hash, key, Stream(original)), OuterMessage(hash, key, Stream(found)))
  {
    HexInjective(Hmac(hash, key, Stream(original)), Hmac(hash, key, Stream(found)));
    HmacSeparates(hash, key, Stream(original), Stream(found));
    StreamIsUnambiguous(original, found);
  }
}
