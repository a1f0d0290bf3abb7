/**
 * Unpadded base64url (RFC 4648, sections 3.5 and 5). Both directions are specified by positional values:
 * a byte string is a number in base 256, its encoding the same number in base 64 followed by zero bits.
 */
module Base64Url {
  import opened Prelude

  const ALPHABET := "ABCDEFGHIJKLM" + "NOPQRSTUVWXYZ" + "abcdefghijklm" + "nopqrstuvwxyz" + "0123456789-_"

  type digit = d: int | 0 <= d < 64

  function DigitChar(d: digit): char {
    if d < 26 then (d + 65) as char
    else if d < 52 then (d + 71) as char
    else if d < 62 then (d - 4) as char
    else if d == 62 then '-' else '_'
  }

  /** The position of a character in the alphabet, or -1. */
  function IndexOf(c: char): int {
    if 'A' <= c <= 'Z' then c as int - 65
    else if 'a' <= c <= 'z' then c as int - 71
    else if '0' <= c <= '9' then c as int + 4
    else if c == '-' then 62
    else if c == '_' then 63
    else -1
  }

  /** The digit characters are the alphabet of section 5, in order. */
  lemma AlphabetIsDigits(d: digit)
    ensures |ALPHABET| == 64 && ALPHABET[d] == DigitChar(d)
  {
  }

  /** The character at a position of the alphabet. */
  function Letter(d: digit): (c: char)
    ensures c == DigitChar(d)
  {
    AlphabetIsDigits(d);
    ALPHABET[d]
  }

  lemma IndexOfDigit(d: digit)
    ensures IndexOf(DigitChar(d)) == d
  {
  }

  lemma DigitOfIndex(c: char)
    requires IndexOf(c) >= 0
    ensures IndexOf(c) < 64 && DigitChar(IndexOf(c)) == c
  {
  }

  // ---------- Positional values ----------

  predicate IsDigits(s: string) {
    forall i :: 0 <= i < |s| ==> IndexOf(s[i]) >= 0
  }

  /** The number a byte string spells in base 256. */
  function Value256(b: seq<byte>): nat {
    if b == [] then 0 else Value256(b[..|b| - 1]) * 256 + b[|b| - 1]
  }

  /** The number a string spells in base 64. */
  function Value64(s: string): nat
    requires IsDigits(s)
  {
    if s == [] then 0 else Value64(s[..|s| - 1]) * 64 + IndexOf(s[|s| - 1])
  }

  /** The last `n` base-64 digits of a number. */
  function DigitsOf(v: nat, n: nat): (s: string)
    ensures |s| == n && IsDigits(s)
  {
    if n == 0 then []
    else
      IndexOfDigit(v % 64);
      DigitsOf(v / 64, n - 1) + [DigitChar(v % 64)]
  }

  /** The last `n` base-256 digits of a number. */
  function BytesOf(v: nat, n: nat): (b: seq<byte>)
    ensures |b| == n
  {
    if n == 0 then [] else BytesOf(v / 256, n - 1) + [v % 256]
  }

  lemma {:induction false} DigitsOfValue(s: string)
    requires IsDigits(s)
    ensures DigitsOf(Value64(s), |s|) == s
  {
    if s != [] {
      hide IndexOf, DigitChar, DigitsOf;
      var init, last := s[..|s| - 1], s[|s| - 1];
      DigitsOfValue(init);
      DigitOfIndex(last);
      AppendDigit(Value64(init), IndexOf(last), |init|);
      assert init + [last] == s;
    }
  }

  lemma {:induction false} BytesOfValue(b: seq<byte>)
    ensures BytesOf(Value256(b), |b|) == b
  {
    if b != [] {
      var init, last := b[..|b| - 1], b[|b| - 1];
      BytesOfValue(init);
      assert Value256(b) / 256 == Value256(init) && Value256(b) % 256 == last;
      assert init + [last] == b;
    }
  }

  function Pow(base: nat, n: nat): nat {
    if n == 0 then 1 else base * Pow(base, n - 1)
  }

  lemma {:induction false} ValueOfDigits(v: nat, n: nat)
    requires v < Pow(64, n)
    ensures Value64(DigitsOf(v, n)) == v
  {
    if n > 0 {
      var s := DigitsOf(v, n);
      assert v / 64 < Pow(64, n - 1);
      ValueOfDigits(v / 64, n - 1);
      IndexOfDigit(v % 64);
      assert s[..n - 1] == DigitsOf(v / 64, n - 1) && s[n - 1] == DigitChar(v % 64);
    }
  }

  lemma {:induction false} ValueOfBytes(v: nat, n: nat)
    requires v < Pow(256, n)
    ensures Value256(BytesOf(v, n)) == v
  {
    if n > 0 {
      var b := BytesOf(v, n);
      assert v / 256 < Pow(256, n - 1);
      ValueOfBytes(v / 256, n - 1);
      assert b[..n - 1] == BytesOf(v / 256, n - 1) && b[n - 1] == v % 256;
    }
  }

  lemma {:induction false} Value256Bound(b: seq<byte>)
    ensures Value256(b) < Pow(256, |b|)
  {
    if b != [] {
      Value256Bound(b[..|b| - 1]);
    }
  }

  lemma {:induction false} Value64Bound(s: string)
    requires IsDigits(s)
    ensures Value64(s) < Pow(64, |s|)
  {
    if s != [] {
      Value64Bound(s[..|s| - 1]);
    }
  }

  // ---------- The codec as functions ----------

  /** The factor 2^k of the k zero bits that fill the last digit. */
  function Fill(n: nat): nat {
    if n % 3 == 0 then 1 else if n % 3 == 1 then 16 else 4
  }

  /** The factor 2^k of the k bits of the last digit that carry no byte. */
  function Spare(length: nat): nat {
    if length % 4 == 0 then 1 else if length % 4 == 2 then 16 else if length % 4 == 3 then 4 else 64
  }

  function Encode(b: seq<byte>): string {
    DigitsOf(Value256(b) * Fill(|b|), (4 * |b| + 2) / 3)
  }

  predicate Decodable(s: string) {
    |s| % 4 != 1 && IsDigits(s) && Value64(s) % Spare(|s|) == 0
  }

  function Decode(s: string): Option<seq<byte>> {
    if Decodable(s) then Some(BytesOf(Value64(s) / Spare(|s|), |s| * 6 / 8)) else None
  }

  lemma {:induction false} PowersAgree(k: nat)
    ensures Pow(256, 3 * k) == Pow(64, 4 * k)
  {
    if k > 0 {
      PowersAgree(k - 1);
      var p, q := Pow(256, 3 * (k - 1)), Pow(64, 4 * (k - 1));
      assert Pow(256, 3 * k - 1) == 256 * Pow(256, 3 * k - 2) && Pow(256, 3 * k - 2) == 256 * p;
      assert Pow(64, 4 * k - 1) == 64 * Pow(64, 4 * k - 2) && Pow(64, 4 * k - 2) == 64 * Pow(64, 4 * k - 3);
      assert Pow(64, 4 * k - 3) == 64 * q;
    }
  }

  lemma EncodedLength(n: nat)
    ensures Spare((4 * n + 2) / 3) == Fill(n) && (4 * n + 2) / 3 * 6 / 8 == n && (4 * n + 2) / 3 % 4 != 1
  {
    var k := n / 3;
    assert n == 3 * k || n == 3 * k + 1 || n == 3 * k + 2;
  }

  /** Both number systems leave exactly the same room: 256^n times the fill is 64 to the encoded length. */
  lemma RoomAgrees(n: nat)
    ensures Pow(256, n) * Fill(n) == Pow(64, (4 * n + 2) / 3)
  {
    var k := n / 3;
    PowersAgree(k);
    if n % 3 == 0 {
      assert n == 3 * k && (4 * n + 2) / 3 == 4 * k;
    } else if n % 3 == 1 {
      assert n == 3 * k + 1 && (4 * n + 2) / 3 == 4 * k + 2;
      assert Pow(64, 4 * k + 2) == 64 * Pow(64, 4 * k + 1) && Pow(64, 4 * k + 1) == 64 * Pow(64, 4 * k);
    } else {
      assert n == 3 * k + 2 && (4 * n + 2) / 3 == 4 * k + 3;
      assert Pow(256, 3 * k + 2) == 256 * Pow(256, 3 * k + 1) && Pow(256, 3 * k + 1) == 256 * Pow(256, 3 * k);
      assert Pow(64, 4 * k + 3) == 64 * Pow(64, 4 * k + 2) && Pow(64, 4 * k + 2) == 64 * Pow(64, 4 * k + 1);
      assert Pow(64, 4 * k + 1) == 64 * Pow(64, 4 * k);
    }
  }

  lemma FillDivides(v: nat, room: nat, n: nat)
    requires v < room
    ensures v * Fill(n) < room * Fill(n) && v * Fill(n) / Fill(n) == v && v * Fill(n) % Fill(n) == 0
  {
  }

  /** Decoding undoes encoding, for all bytes. */
  lemma DecodeEncode(b: seq<byte>)
    ensures Decode(Encode(b)) == Some(b)
  {
    var n := |b|;
    RoomAgrees(n);
    EncodedLength(n);
    Value256Bound(b);
    FillDivides(Value256(b), Pow(256, n), n);
    ValueOfDigits(Value256(b) * Fill(n), (4 * n + 2) / 3);
    BytesOfValue(b);
  }

  lemma FillExact(x: nat, room: nat, n: nat)
    requires x < room * Fill(n) && x % Fill(n) == 0
    ensures x / Fill(n) < room && x / Fill(n) * Fill(n) == x
  {
  }

  lemma LengthInverse(length: nat)
    requires length % 4 != 1
    ensures (4 * (length * 6 / 8) + 2) / 3 == length
  {
  }

  /** Encoding undoes decoding: every byte string has exactly one accepted spelling. */
  lemma EncodeDecode(s: string)
    requires Decode(s).Some?
    ensures Encode(Decode(s).value) == s
  {
    var n := |s| * 6 / 8;
    LengthInverse(|s|);
    RoomAgrees(n);
    EncodedLength(n);
    Value64Bound(s);
    FillExact(Value64(s), Pow(256, n), n);
    ValueOfBytes(Value64(s) / Spare(|s|), n);
    DigitsOfValue(s);
  }

  // ---------- The loops ----------

  lemma AppendDigit(v: nat, d: digit, n: nat)
    ensures DigitsOf(v * 64 + d, n + 1) == DigitsOf(v, n) + [DigitChar(d)]
  {
    assert (v * 64 + d) / 64 == v && (v * 64 + d) % 64 == d;
  }

  lemma AppendFour(v: nat, d0: digit, d1: digit, d2: digit, d3: digit, n: nat)
    ensures DigitsOf((((v * 64 + d0) * 64 + d1) * 64 + d2) * 64 + d3, n + 4) ==
            DigitsOf(v, n) + [DigitChar(d0), DigitChar(d1), DigitChar(d2), DigitChar(d3)]
  {
    hide DigitsOf, DigitChar;
    AppendDigit(v, d0, n);
    AppendDigit(v * 64 + d0, d1, n + 1);
    AppendDigit((v * 64 + d0) * 64 + d1, d2, n + 2);
    AppendDigit(((v * 64 + d0) * 64 + d1) * 64 + d2, d3, n + 3);
  }

  /** The four six-bit groups of a 24-bit number. */
  lemma FourGroups(v: nat, value: nat)
    requires value < 16777216
    ensures (((v * 64 + value / 262144 % 64) * 64 + value / 4096 % 64) * 64 + value / 64 % 64) * 64 + value % 64 ==
            v * 16777216 + value
  {
    assert value / 262144 % 64 == value / 262144;
    assert value / 4096 == value / 262144 * 64 + value / 4096 % 64;
    assert value / 64 == value / 4096 * 64 + value / 64 % 64;
  }

  lemma AppendByte(b: seq<byte>, i: nat)
    requires i < |b|
    ensures Value256(b[..i + 1]) == Value256(b[..i]) * 256 + b[i]
  {
    assert b[..i + 1][..i] == b[..i];
  }

  function Block(b: seq<byte>, i: nat): nat
    requires i + 3 <= |b|
  {
    (b[i] as int) * 65536 + (b[i + 1] as int) * 256 + b[i + 2] as int
  }

  function Pair(b: seq<byte>, i: nat): nat
    requires i + 2 <= |b|
  {
    (b[i] as int) * 256 + b[i + 1] as int
  }

  /** Three bytes more in the input are four digits more in the output. */
  lemma BlockStep(b: seq<byte>, i: nat)
    requires i % 3 == 0 && i + 3 <= |b|
    ensures var value := Block(b, i);
            DigitsOf(Value256(b[..i + 3]), (i + 3) / 3 * 4) ==
            DigitsOf(Value256(b[..i]), i / 3 * 4) + [DigitChar(value / 262144 % 64), DigitChar(value / 4096 % 64),
                                                     DigitChar(value / 64 % 64), DigitChar(value % 64)]
  {
    hide DigitsOf, DigitChar, Value256;
    var v, value := Value256(b[..i]), Block(b, i);
    AppendByte(b, i);
    AppendByte(b, i + 1);
    AppendByte(b, i + 2);
    assert Value256(b[..i + 3]) == v * 16777216 + value;
    assert (i + 3) / 3 * 4 == i / 3 * 4 + 4;
    FourGroups(v, value);
    AppendFour(v, value / 262144 % 64, value / 4096 % 64, value / 64 % 64, value % 64, i / 3 * 4);
  }

  lemma TailLengths(i: nat)
    requires i % 3 == 0
    ensures (4 * (i + 1) + 2) / 3 == i / 3 * 4 + 2 && Fill(i + 1) == 16
    ensures (4 * (i + 2) + 2) / 3 == i / 3 * 4 + 3 && Fill(i + 2) == 4
  {
  }

  lemma TwoGroups(v: nat, value: nat)
    requires value < 256
    ensures (v * 64 + value / 4) * 64 + value * 16 % 64 == (v * 256 + value) * 16
  {
  }

  lemma ThreeGroups(v: nat, value: nat)
    requires value < 65536
    ensures ((v * 64 + value / 1024 % 64) * 64 + value / 16 % 64) * 64 + value * 4 % 64 == (v * 65536 + value) * 4
  {
    assert value / 16 == value / 1024 * 64 + value / 16 % 64;
  }

  lemma AppendTwo(v: nat, d0: digit, d1: digit, n: nat)
    ensures DigitsOf((v * 64 + d0) * 64 + d1, n + 2) == DigitsOf(v, n) + [DigitChar(d0), DigitChar(d1)]
  {
    AppendDigit(v, d0, n);
    AppendDigit(v * 64 + d0, d1, n + 1);
  }

  lemma AppendThree(v: nat, d0: digit, d1: digit, d2: digit, n: nat)
    ensures DigitsOf(((v * 64 + d0) * 64 + d1) * 64 + d2, n + 3) ==
            DigitsOf(v, n) + [DigitChar(d0), DigitChar(d1), DigitChar(d2)]
  {
    AppendTwo(v, d0, d1, n);
    AppendDigit((v * 64 + d0) * 64 + d1, d2, n + 2);
  }

  /** One byte left over is two digits. */
  lemma TailOne(b: seq<byte>, i: nat)
    requires i % 3 == 0 && i + 1 == |b|
    ensures Encode(b) ==
            DigitsOf(Value256(b[..i]), i / 3 * 4) + [DigitChar(b[i] / 4), DigitChar(b[i] as int * 16 % 64)]
  {
    var value: int := b[i];
    AppendByte(b, i);
    assert b[..i + 1] == b;
    TailLengths(i);
    TwoGroups(Value256(b[..i]), value);
    AppendTwo(Value256(b[..i]), value / 4, value * 16 % 64, i / 3 * 4);
  }

  /** Two bytes left over are three digits. */
  lemma TailTwo(b: seq<byte>, i: nat)
    requires i % 3 == 0 && i + 2 == |b|
    ensures var value := Pair(b, i);
            Encode(b) == DigitsOf(Value256(b[..i]), i / 3 * 4) +
                         [DigitChar(value / 1024 % 64), DigitChar(value / 16 % 64), DigitChar(value * 4 % 64)]
  {
    var value := Pair(b, i);
    AppendByte(b, i);
    AppendByte(b, i + 1);
    assert b[..i + 2] == b;
    assert Value256(b) == Value256(b[..i]) * 65536 + value;
    TailLengths(i);
    ThreeGroups(Value256(b[..i]), value);
    AppendThree(Value256(b[..i]), value / 1024 % 64, value / 16 % 64, value * 4 % 64, i / 3 * 4);
  }

  /** Encodes groups of three bytes, then a tail of one or two. */
  method EncodeBytes(input: seq<byte>) returns (output: string)
    ensures output == Encode(input)
  {
    if |input| == 0 {
      return "";
    }
    output := "";
    var index := 0;
    while index + 3 <= |input|
      invariant 0 <= index <= |input| && index % 3 == 0
      invariant output == DigitsOf(Value256(input[..index]), index / 3 * 4)
    {
      var value := Block(input, index);
      BlockStep(input, index);
      output := output + [Letter(value / 262144 % 64), Letter(value / 4096 % 64),
                          Letter(value / 64 % 64), Letter(value % 64)];
      index := index + 3;
    }
    var remaining := |input| - index;
    if remaining == 1 {
      TailOne(input, index);
      output := output + [Letter(input[index] / 4), Letter(input[index] as int * 16 % 64)];
    } else if remaining == 2 {
      var value := Pair(input, index);
      TailTwo(input, index);
      output := output + [Letter(value / 1024 % 64), Letter(value / 16 % 64), Letter(value * 4 % 64)];
    } else {
      assert input[..index] == input;
    }
  }

  /** A right shift, for the bit counts the decoder reaches. */
  function Shr(v: nat, bits: nat): nat {
    if bits == 0 then v else if bits == 2 then v / 4 else if bits == 4 then v / 16 else v / 64
  }

  /** The bits that such a shift drops. */
  function Dropped(v: nat, bits: nat): nat {
    if bits == 0 then 0 else if bits == 2 then v % 4 else if bits == 4 then v % 16 else v % 64
  }

  lemma Truncates(q: nat, r: nat)
    ensures (q * 256 + r) % 256 == r % 256
  {
  }

  lemma Wrapped2(q: nat, r: nat)
    ensures (q * 0x1_0000_0000 + r) / 4 == q * 0x40_0000 * 256 + r / 4 && (q * 0x1_0000_0000 + r) % 4 == r % 4
  {
  }

  lemma Wrapped4(q: nat, r: nat)
    ensures (q * 0x1_0000_0000 + r) / 16 == q * 0x10_0000 * 256 + r / 16 && (q * 0x1_0000_0000 + r) % 16 == r % 16
  {
  }

  lemma Wrapped6(q: nat, r: nat)
    ensures (q * 0x1_0000_0000 + r) / 64 == q * 0x4_0000 * 256 + r / 64 && (q * 0x1_0000_0000 + r) % 64 == r % 64
  {
  }

  /** The byte cut out of the 32-bit accumulator is the one the unbounded accumulator would give. */
  lemma WrappedByte(exact: nat, bits: nat)
    requires bits == 0 || bits == 2 || bits == 4 || bits == 6
    ensures Shr(exact % 0x1_0000_0000, bits) % 256 == Shr(exact, bits) % 256
    ensures Dropped(exact % 0x1_0000_0000, bits) == Dropped(exact, bits)
  {
    var q, r := exact / 0x1_0000_0000, exact % 0x1_0000_0000;
    assert exact == q * 0x1_0000_0000 + r;
    if bits == 0 {
      Truncates(q * 0x100_0000, r);
    } else if bits == 2 {
      Wrapped2(q, r);
      Truncates(q * 0x40_0000, r / 4);
    } else if bits == 4 {
      Wrapped4(q, r);
      Truncates(q * 0x10_0000, r / 16);
    } else {
      Wrapped6(q, r);
      Truncates(q * 0x4_0000, r / 64);
    }
  }

  /** Shifting the 32-bit accumulator keeps it the remainder of the unbounded one. */
  lemma WrappedShift(exact: nat, d: digit)
    ensures (exact % 0x1_0000_0000 * 64 + d) % 0x1_0000_0000 == (exact * 64 + d) % 0x1_0000_0000
  {
    var q, r := exact / 0x1_0000_0000, exact % 0x1_0000_0000;
    assert exact * 64 + d == q * 64 * 0x1_0000_0000 + (r * 64 + d);
  }

  /** Shifting in one digit either completes a byte or leaves all bytes as they were. */
  lemma NextDigit(exact: nat, d: digit, bits: nat)
    requires bits == 0 || bits == 2 || bits == 4 || bits == 6
    ensures bits > 0 ==> Shr(exact * 64 + d, bits - 2) / 256 == Shr(exact, bits)
    ensures bits == 0 ==> Shr(exact * 64 + d, 6) == exact
  {
  }

  lemma AppendCharacter(s: string, i: nat)
    requires i < |s| && IsDigits(s[..i + 1])
    ensures IsDigits(s[..i]) && Value64(s[..i + 1]) == Value64(s[..i]) * 64 + IndexOf(s[i])
  {
    assert s[..i + 1][..i] == s[..i];
    assert s[..i + 1][i] == s[i];
  }

  lemma BitCounts(i: nat)
    ensures 6 * i % 8 == 0 || 6 * i % 8 == 2 || 6 * i % 8 == 4 || 6 * i % 8 == 6
    ensures 6 * i % 8 > 0 ==> 6 * (i + 1) % 8 == 6 * i % 8 - 2 && 6 * (i + 1) / 8 == 6 * i / 8 + 1
    ensures 6 * i % 8 == 0 ==> 6 * (i + 1) % 8 == 6 && 6 * (i + 1) / 8 == 6 * i / 8
  {
  }

  /** The whole bytes contained in the first `i` digits. */
  function WholeBytes(s: string, i: nat): seq<byte>
    requires i <= |s| && IsDigits(s[..i])
  {
    BytesOf(Shr(Value64(s[..i]), 6 * i % 8), 6 * i / 8)
  }

  /** One more digit: the accumulator follows, and a byte is cut out of it exactly when one is complete. */
  lemma DecodeStep(s: string, i: nat, accumulator: nat)
    requires i < |s| && IsDigits(s[..i + 1]) && IsDigits(s[..i])
    requires accumulator == Value64(s[..i]) % 0x1_0000_0000
    ensures var next := (accumulator * 64 + IndexOf(s[i])) % 0x1_0000_0000;
            && next == Value64(s[..i + 1]) % 0x1_0000_0000
            && WholeBytes(s, i + 1) ==
               WholeBytes(s, i) + (if 6 * i % 8 == 0 then [] else [Shr(next, 6 * i % 8 - 2) % 256])
  {
    var bits, exact := 6 * i % 8, Value64(s[..i]);
    AppendCharacter(s, i);
    DigitOfIndex(s[i]);
    var d: digit := IndexOf(s[i]);
    WrappedShift(exact, d);
    BitCounts(i);
    NextDigit(exact, d, bits);
    if bits > 0 {
      WrappedByte(exact * 64 + d, bits - 2);
    }
  }

  /** After the last digit, the bits left over are the spare ones. */
  lemma SpareBits(v: nat, n: nat)
    requires n % 4 != 1
    ensures v % Spare(n) == Dropped(v, 6 * n % 8) && v / Spare(n) == Shr(v, 6 * n % 8)
  {
    SpareCount(n / 4, n % 4);
  }

  lemma SpareCount(q: nat, r: nat)
    requires r < 4 && r != 1
    ensures 6 * (4 * q + r) % 8 == if r == 0 then 0 else if r == 2 then 4 else 2
  {
    assert 6 * (4 * q + r) == 8 * (3 * q) + 6 * r;
  }

  lemma RoomForByte(i: nat, n: nat)
    requires i < n && 6 * i % 8 > 0
    ensures 6 * i / 8 < n * 6 / 8
  {
  }

  /** Decodes digit by digit through a wrapping 32-bit accumulator. */
  method DecodeString(input: string) returns (r: Option<seq<byte>>)
    ensures r == Decode(input)
  {
    if |input| % 4 == 1 {
      return None;
    }
    var output := new byte[|input| * 6 / 8](_ => 0);
    var accumulator, bits, outputIndex := 0, 0, 0;
    for i := 0 to |input|
      invariant IsDigits(input[..i])
      invariant bits == 6 * i % 8 && outputIndex == 6 * i / 8
      invariant accumulator == Value64(input[..i]) % 0x1_0000_0000
      invariant output[..outputIndex] == WholeBytes(input, i)
    {
      var value := IndexOf(input[i]);
      if value < 0 {
        return None;
      }
      assert IsDigits(input[..i + 1]);
      DecodeStep(input, i, accumulator);
      BitCounts(i);
      accumulator := (accumulator * 64 + value) % 0x1_0000_0000;
      bits := bits + 6;
      if bits >= 8 {
        bits := bits - 8;
        RoomForByte(i, |input|);
        output[outputIndex] := Shr(accumulator, bits) % 256;
        outputIndex := outputIndex + 1;
      }
    }
    assert input[..|input|] == input;
    BitCounts(|input|);
    WrappedByte(Value64(input), bits);
    SpareBits(Value64(input), |input|);
    if bits != 0 && Dropped(accumulator, bits) != 0 {
      return None;
    }
    assert output[..] == output[..outputIndex];
    r := Some(output[..]);
  }
}
