/** Byte strings: chunks at positions, and little-endian words as the ZIP format stores them. */
module Bytes {
  import opened Prelude

  type u16 = x: int | 0 <= x < 0x1_0000

  type u32 = x: int | 0 <= x < 0x1_0000_0000

  /** A chunk stands in a byte string at a position. */
  predicate At(s: seq<byte>, pos: nat, chunk: seq<byte>) {
    pos + |chunk| <= |s| && s[pos..pos + |chunk|] == chunk
  }

  lemma AtConcat(s: seq<byte>, pos: nat, a: seq<byte>, b: seq<byte>)
    ensures At(s, pos, a + b) <==> At(s, pos, a) && At(s, pos + |a|, b)
  {
    if At(s, pos, a + b) {
      assert s[pos..pos + |a|] == (a + b)[..|a|];
      assert s[pos + |a|..pos + |a| + |b|] == (a + b)[|a|..];
    }
    if At(s, pos, a) && At(s, pos + |a|, b) {
      assert s[pos..pos + |a + b|] == s[pos..pos + |a|] + s[pos + |a|..pos + |a| + |b|];
    }
  }

  lemma AtConcat5(s: seq<byte>, pos: nat, a: seq<byte>, b: seq<byte>, c: seq<byte>, d: seq<byte>, e: seq<byte>)
    ensures At(s, pos, a + b + c + d + e) <==>
      && At(s, pos, a) && At(s, pos + |a|, b) && At(s, pos + |a| + |b|, c)
      && At(s, pos + |a| + |b| + |c|, d) && At(s, pos + |a| + |b| + |c| + |d|, e)
  {
    AtConcat(s, pos, a + b + c + d, e);
    AtConcat(s, pos, a + b + c, d);
    AtConcat(s, pos, a + b, c);
    AtConcat(s, pos, a, b);
  }

  /** The beginning of a chunk. */
  lemma AtPrefix(s: seq<byte>, pos: nat, chunk: seq<byte>, prefix: seq<byte>)
    requires At(s, pos, chunk) && |prefix| <= |chunk| && chunk[..|prefix|] == prefix
    ensures At(s, pos, prefix)
  {
    assert prefix + chunk[|prefix|..] == chunk;
    AtConcat(s, pos, prefix, chunk[|prefix|..]);
  }

  // ---------- Little-endian words ----------

  function Low(x: u32): u16 {
    x % 0x1_0000
  }

  function High(x: u32): u16 {
    x / 0x1_0000
  }

  function Word(x: u16): (b: seq<byte>)
    ensures |b| == 2
  {
    [x % 256, x / 256]
  }

  function Words3(a: u16, b: u16, c: u16): (r: seq<byte>)
    ensures |r| == 6
  {
    Word(a) + Word(b) + Word(c)
  }

  function Words4(a: u16, b: u16, c: u16, d: u16): (r: seq<byte>)
    ensures |r| == 8
  {
    Words3(a, b, c) + Word(d)
  }

  /** ByteBuffer.getShort, unsigned, in little-endian order. */
  function U16(s: seq<byte>, pos: nat): (x: u16)
    requires pos + 2 <= |s|
  {
    var low: int, high: int := s[pos], s[pos + 1];
    low + 256 * high
  }

  /** ByteBuffer.getInt, unsigned, in little-endian order. */
  function U32(s: seq<byte>, pos: nat): (x: u32)
    requires pos + 4 <= |s|
  {
    var low: int, high: int := U16(s, pos), U16(s, pos + 2);
    low + 0x1_0000 * high
  }

  lemma WordDigits(low: int, high: int, x: int)
    requires 0 <= low < 256 && 0 <= high < 256 && 0 <= x < 0x1_0000
    ensures low + 256 * high == x <==> low == x % 256 && high == x / 256
  {
  }

  lemma WordAt(s: seq<byte>, pos: nat, x: u16)
    ensures At(s, pos, Word(x)) <==> pos + 2 <= |s| && U16(s, pos) == x
  {
    if pos + 2 <= |s| {
      assert s[pos..pos + 2] == [s[pos], s[pos + 1]];
      WordDigits(s[pos], s[pos + 1], x);
    }
  }

  lemma Words3At(s: seq<byte>, pos: nat, a: u16, b: u16, c: u16)
    ensures At(s, pos, Words3(a, b, c)) <==>
      pos + 6 <= |s| && U16(s, pos) == a && U16(s, pos + 2) == b && U16(s, pos + 4) == c
  {
    AtConcat(s, pos, Word(a) + Word(b), Word(c));
    AtConcat(s, pos, Word(a), Word(b));
    WordAt(s, pos, a);
    WordAt(s, pos + 2, b);
    WordAt(s, pos + 4, c);
  }

  lemma Words4At(s: seq<byte>, pos: nat, a: u16, b: u16, c: u16, d: u16)
    ensures At(s, pos, Words4(a, b, c, d)) <==>
      && pos + 8 <= |s|
      && U16(s, pos) == a && U16(s, pos + 2) == b && U16(s, pos + 4) == c && U16(s, pos + 6) == d
  {
    AtConcat(s, pos, Words3(a, b, c), Word(d));
    Words3At(s, pos, a, b, c);
    WordAt(s, pos + 6, d);
  }

  lemma DoubleWord(s: seq<byte>, pos: nat, x: u32)
    requires pos + 4 <= |s|
    ensures U32(s, pos) == x <==> U16(s, pos) == Low(x) && U16(s, pos + 2) == High(x)
  {
    var low: int, high: int, n: int := U16(s, pos), U16(s, pos + 2), x;
    assert low + 0x1_0000 * high == n <==> low == n % 0x1_0000 && high == n / 0x1_0000;
  }

  /** The two halves of the 23-word headers of the ZIP format. */
  function Words11(a: u16, b: u16, c: u16, d: u16, e: u16, f: u16, g: u16, h: u16, i: u16, j: u16, k: u16): (r: seq<byte>)
    ensures |r| == 22
  {
    Words4(a, b, c, d) + Words4(e, f, g, h) + Words3(i, j, k)
  }

  function Words12(a: u16, b: u16, c: u16, d: u16, e: u16, f: u16, g: u16, h: u16, i: u16, j: u16, k: u16, l: u16)
    : (r: seq<byte>)
    ensures |r| == 24
  {
    Words4(a, b, c, d) + Words4(e, f, g, h) + Words4(i, j, k, l)
  }

  lemma Words11At(s: seq<byte>, pos: nat, a: u16, b: u16, c: u16, d: u16, e: u16, f: u16, g: u16, h: u16,
                  i: u16, j: u16, k: u16)
    ensures At(s, pos, Words11(a, b, c, d, e, f, g, h, i, j, k)) <==>
      && pos + 22 <= |s|
      && U16(s, pos) == a && U16(s, pos + 2) == b && U16(s, pos + 4) == c && U16(s, pos + 6) == d
      && U16(s, pos + 8) == e && U16(s, pos + 10) == f && U16(s, pos + 12) == g && U16(s, pos + 14) == h
      && U16(s, pos + 16) == i && U16(s, pos + 18) == j && U16(s, pos + 20) == k
  {
    AtConcat(s, pos, Words4(a, b, c, d) + Words4(e, f, g, h), Words3(i, j, k));
    AtConcat(s, pos, Words4(a, b, c, d), Words4(e, f, g, h));
    Words4At(s, pos, a, b, c, d);
    Words4At(s, pos + 8, e, f, g, h);
    Words3At(s, pos + 16, i, j, k);
  }

  lemma Words12At(s: seq<byte>, pos: nat, a: u16, b: u16, c: u16, d: u16, e: u16, f: u16, g: u16, h: u16,
                  i: u16, j: u16, k: u16, l: u16)
    ensures At(s, pos, Words12(a, b, c, d, e, f, g, h, i, j, k, l)) <==>
      && pos + 24 <= |s|
      && U16(s, pos) == a && U16(s, pos + 2) == b && U16(s, pos + 4) == c && U16(s, pos + 6) == d
      && U16(s, pos + 8) == e && U16(s, pos + 10) == f && U16(s, pos + 12) == g && U16(s, pos + 14) == h
      && U16(s, pos + 16) == i && U16(s, pos + 18) == j && U16(s, pos + 20) == k && U16(s, pos + 22) == l
  {
    AtConcat(s, pos, Words4(a, b, c, d) + Words4(e, f, g, h), Words4(i, j, k, l));
    AtConcat(s, pos, Words4(a, b, c, d), Words4(e, f, g, h));
    Words4At(s, pos, a, b, c, d);
    Words4At(s, pos + 8, e, f, g, h);
    Words4At(s, pos + 16, i, j, k, l);
  }
}
