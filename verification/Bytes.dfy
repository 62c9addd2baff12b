/** Bytes, C integers laid out in bytes, and edits of byte sequences. */
module Bytes {
  type Byte = x: int | 0 <= x < 256

  const INT_MIN := -0x8000_0000
  const INT_MAX := 0x7FFF_FFFF

  type Int32 = x: int | INT_MIN <= x <= INT_MAX

  const WORD := 0x1_0000_0000

  /** The four bytes of an unsigned int, least significant byte first. */
  function EncodeWord(u: int): (s: seq<Byte>)
    requires 0 <= u < WORD
    ensures |s| == 4 && WordAt(s, 0) == u
  {
    var u1 := u / 0x100;
    var u2 := u1 / 0x100;
    [u % 0x100, u1 % 0x100, u2 % 0x100, u2 / 0x100]
  }

  function WordAt(d: seq<Byte>, a: nat): (u: int)
    requires a + 4 <= |d|
    ensures 0 <= u < WORD
  {
    var (b0: int, b1: int, b2: int, b3: int) := (d[a], d[a + 1], d[a + 2], d[a + 3]);
    b0 + 0x100 * b1 + 0x1_0000 * b2 + 0x100_0000 * b3
  }

  /** The four bytes of a C int, in two's complement. */
  function EncodeInt(v: Int32): (s: seq<Byte>)
    ensures |s| == 4
    ensures IntAt(s, 0) == v
  {
    EncodeWord(if v < 0 then v + WORD else v)
  }

  /** The C int stored at address a. */
  function IntAt(d: seq<Byte>, a: nat): (v: Int32)
    requires a + 4 <= |d|
  {
    var u := WordAt(d, a);
    if u > INT_MAX then u - WORD else u
  }

  lemma IntAtInjective(d: seq<Byte>, a: nat, e: seq<Byte>, b: nat)
    requires a + 4 <= |d| && b + 4 <= |e|
    requires IntAt(d, a) == IntAt(e, b)
    ensures d[a..a + 4] == e[b..b + 4]
  {
    assert d[a + 3] == e[b + 3];
    assert d[a + 2] == e[b + 2];
    assert d[a + 1] == e[b + 1];
  }

  /** The int at address a of d lies at address a - p of a stretch of d that starts at p. */
  lemma IntInStretch(d: seq<Byte>, p: nat, q: nat, a: nat)
    requires p <= a && a + 4 <= q <= |d|
    ensures IntAt(d[p..q], a - p) == IntAt(d, a)
  {
  }

  /** d with the bytes s stored at address a: what memcpy leaves behind. */
  function Patch(d: seq<Byte>, a: nat, s: seq<Byte>): (r: seq<Byte>)
    requires a + |s| <= |d|
    ensures |r| == |d|
    ensures forall k :: 0 <= k < |d| ==> r[k] == if a <= k < a + |s| then s[k - a] else d[k]
  {
    d[..a] + s + d[a + |s|..]
  }

  /** The content c after writing s at position o, growing it where s runs past its end. */
  function Splice(c: seq<Byte>, o: nat, s: seq<Byte>): (r: seq<Byte>)
    requires o <= |c|
    ensures |r| == if o + |s| > |c| then o + |s| else |c|
    ensures r[o..o + |s|] == s
    ensures forall k :: 0 <= k < |r| ==> r[k] == if o <= k < o + |s| then s[k - o] else c[k]
  {
    c[..o] + s + (if o + |s| < |c| then c[o + |s|..] else [])
  }

  /** Storing a C int at entry e of an array of ints changes that entry only. */
  lemma StoreEntry(d: seq<Byte>, e: nat, v: Int32)
    requires 4 * e + 4 <= |d|
    ensures var d' := Patch(d, 4 * e, EncodeInt(v));
            && IntAt(d', 4 * e) == v
            && forall f: nat :: f != e && 4 * f + 4 <= |d| ==> IntAt(d', 4 * f) == IntAt(d, 4 * f)
  {
    var s := EncodeInt(v);
    var d' := Patch(d, 4 * e, s);
    assert d'[4 * e..4 * e + 4] == s;
    assert IntAt(d', 4 * e) == IntAt(s, 0);
  }

  /** Two adjacent writes are one write of the concatenation. */
  lemma SpliceTwice(c: seq<Byte>, o: nat, s: seq<Byte>, t: seq<Byte>)
    requires o <= |c|
    ensures Splice(Splice(c, o, s), o + |s|, t) == Splice(c, o, s + t)
  {
  }
}
