/**
 * ES256 signatures: the fixed 64-byte form of RFC 7518, section 3.4, and the DER form of ITU-T X.690
 * (sections 8.1.3, 8.3 and 10.1). Both converters are proved against the one declarative form `DerOf`.
 */
module EcdsaSignatureCodec {
  import opened Prelude
  import opened Base64Url
  import opened Bytes

  // ---------- The DER form ----------

  /** Without leading zero octets, but never empty. */
  function Stripped(b: seq<byte>): (u: seq<byte>)
    requires |b| > 0
    ensures 0 < |u| <= |b|
  {
    if |b| > 1 && b[0] == 0 then Stripped(b[1..]) else b
  }

  /** The contents octets of the INTEGER with the given unsigned big-endian value. */
  function Content(b: seq<byte>): (c: seq<byte>)
    requires |b| > 0
    ensures 0 < |c| <= |b| + 1
  {
    var u := Stripped(b);
    if u[0] >= 0x80 then [0] + u else u
  }

  function DerInteger(b: seq<byte>): seq<byte>
    requires 0 < |b| <= 32
  {
    [0x02, |Content(b)|] + Content(b)
  }

  function DerOf(jose: seq<byte>): seq<byte>
    requires |jose| == 64
  {
    var payload := DerInteger(jose[..32]) + DerInteger(jose[32..]);
    [0x30, |payload|] + payload
  }

  function Zeros(n: nat): (z: seq<byte>)
    ensures |z| == n && forall i :: 0 <= i < n ==> z[i] == 0
  {
    if n == 0 then [] else [0] + Zeros(n - 1)
  }

  /** A big-endian number written in 32 octets. */
  function Padded(v: seq<byte>): (b: seq<byte>)
    requires |v| <= 32
    ensures |b| == 32
  {
    Zeros(32 - |v|) + v
  }

  /** Section 8.3.2 for a non-negative value: the first nine bits are not all zero. */
  predicate Minimal(c: seq<byte>) {
    |c| > 0 && c[0] < 0x80 && (|c| > 1 && c[0] == 0 ==> c[1] >= 0x80)
  }

  /** The unsigned octets that contents octets of at most 33 stand for. */
  function Unsigned(c: seq<byte>): (v: seq<byte>)
    requires 0 < |c| <= 33
    ensures |v| <= 32
  {
    if |c| == 33 then c[1..] else c
  }

  lemma {:induction false} StrippedFacts(b: seq<byte>)
    requires |b| > 0
    ensures var u := Stripped(b);
            (|u| > 1 ==> u[0] != 0) && b == Zeros(|b| - |u|) + u && Value256(u) == Value256(b)
  {
    if |b| > 1 && b[0] == 0 {
      StrippedFacts(b[1..]);
      assert b == [0] + b[1..];
      LeadingZero(b[1..]);
    } else {
      assert b == Zeros(0) + b;
    }
  }

  lemma {:induction false} LeadingZero(b: seq<byte>)
    ensures Value256([0] + b) == Value256(b)
  {
    var z := [0] + b;
    if b == [] {
      assert z[..0] == [];
    } else {
      LeadingZero(b[..|b| - 1]);
      assert z[..|z| - 1] == [0] + b[..|b| - 1];
    }
  }

  lemma {:induction false} StrippedZeros(n: nat, u: seq<byte>)
    requires |u| > 0 && (|u| > 1 ==> u[0] != 0)
    ensures Stripped(Zeros(n) + u) == u
  {
    if n > 0 {
      assert (Zeros(n) + u)[1..] == Zeros(n - 1) + u;
      StrippedZeros(n - 1, u);
    } else {
      assert Zeros(0) + u == u;
    }
  }

  /** The contents are minimal, keep the value, and give the octets back. */
  lemma ContentFacts(b: seq<byte>)
    requires |b| == 32
    ensures Minimal(Content(b)) && Value256(Content(b)) == Value256(b)
    ensures |Content(b)| == 33 ==> Content(b)[0] == 0
    ensures Padded(Unsigned(Content(b))) == b
  {
    StrippedFacts(b);
    var u, c := Stripped(b), Content(b);
    if u[0] >= 0x80 {
      LeadingZero(u);
      if |u| < 32 {
        assert Padded(c) == Zeros(32 - |u|) + u;
      }
    }
  }

  /** Minimal contents of a 32-octet number are the contents of exactly the padded number. */
  lemma ContentOfPadded(c: seq<byte>)
    requires 0 < |c| <= 33 && Minimal(c) && (|c| == 33 ==> c[0] == 0)
    ensures Content(Padded(Unsigned(c))) == c
  {
    if |c| > 1 && c[0] == 0 {
      var u := c[1..];
      if |c| < 33 {
        assert Padded(c) == Zeros(32 - |u|) + u;
      }
      StrippedZeros(32 - |u|, u);
    } else {
      StrippedZeros(32 - |c|, c);
    }
  }

  // ---------- From the fixed form to DER ----------

  /** The index where the stripped octets begin. */
  lemma {:induction false} StrippedFrom(b: seq<byte>, first: nat)
    requires first < |b| && forall i :: 0 <= i < first ==> b[i] == 0
    ensures Stripped(b) == Stripped(b[first..])
  {
    if first > 0 {
      StrippedFrom(b[1..], first - 1);
      assert b[1..][first - 1..] == b[first..];
    }
  }

  method IntegerOf(bytes: seq<byte>) returns (r: seq<byte>)
    requires |bytes| == 32
    ensures r == DerInteger(bytes)
  {
    var first := 0;
    while first < |bytes| - 1 && bytes[first] == 0
      invariant 0 <= first < |bytes|
      invariant forall i :: 0 <= i < first ==> bytes[i] == 0
    {
      first := first + 1;
    }
    StrippedFrom(bytes, first);
    var unsigned := bytes[first..];
    var needsZero := unsigned[0] >= 0x80;
    var value := if needsZero then [0] + unsigned else unsigned;
    r := [0x02, |value|] + value;
  }

  method JoseToDer(jose: seq<byte>) returns (r: Option<seq<byte>>)
    ensures r == if |jose| == 64 then Some(DerOf(jose)) else None
  {
    if |jose| != 64 {
      return None;
    }
    var first := IntegerOf(jose[..32]);
    var second := IntegerOf(jose[32..]);
    var payload := first + second;
    r := Some([0x30, |payload|] + payload);
  }

  // ---------- From DER to the fixed form ----------

  /** Reads a length in short form, or a canonical long form of one or two octets. */
  method ReadLength(der: seq<byte>, start: nat) returns (length: Option<nat>, index: nat)
    requires start <= |der|
    ensures start <= index <= |der|
    ensures start < |der| && der[start] < 0x80 ==> length == Some(der[start] as nat) && index == start + 1
    ensures length.Some? && !(start < |der| && der[start] < 0x80) ==> length.value >= 128
  {
    index := start;
    if index >= |der| {
      return None, index;
    }
    var first: int := der[index];
    index := index + 1;
    if first < 0x80 {
      return Some(first), index;
    }
    var count := first - 0x80;
    if !(1 <= count <= 2) {
      return None, index;
    }
    var value := 0;
    for k := 0 to count
      invariant start <= index <= |der| && value >= 0
    {
      if index >= |der| {
        return None, index;
      }
      value := value * 256 + der[index] as int;
      index := index + 1;
    }
    if value < 128 {
      return None, index;
    }
    length := Some(value);
  }

  /** What a reader sees of an encoded INTEGER. */
  lemma IntegerParts(der: seq<byte>, start: nat, b: seq<byte>)
    requires |b| == 32 && At(der, start, DerInteger(b))
    ensures var c := Content(b);
            && start + 2 + |c| <= |der| && der[start] == 0x02 && der[start + 1] as int == |c|
            && der[start + 2..start + 2 + |c|] == c
  {
    var c, chunk := Content(b), DerInteger(b);
    assert der[start] == chunk[0] && der[start + 1] == chunk[1];
    assert der[start + 2..start + |chunk|] == chunk[2..];
  }

  lemma IntegerAt(der: seq<byte>, start: nat, c: seq<byte>)
    requires start + 2 + |c| <= |der| && |c| < 0x80 && der[start] == 0x02 && der[start + 1] as int == |c|
    requires c == der[start + 2..start + 2 + |c|]
    ensures At(der, start, [0x02, |c|] + c)
  {
    assert der[start..start + 2 + |c|] == [der[start], der[start + 1]] + der[start + 2..start + 2 + |c|];
  }

  /**
   * Reads one INTEGER: exactly the encodings of 32-octet numbers are accepted. The ghost argument stands
   * for any number whose encoding may be there.
   */
  method ReadInteger(der: seq<byte>, start: nat, ghost b: seq<byte>)
    returns (value: Option<seq<byte>>, index: nat)
    requires start <= |der| && |b| == 32
    ensures start <= index <= |der|
    ensures value.Some? ==>
              |value.value| <= 32 && At(der, start, DerInteger(Padded(value.value))) &&
              index == start + |DerInteger(Padded(value.value))|
    ensures At(der, start, DerInteger(b)) ==> value.Some? && Padded(value.value) == b
  {
    hide Content, Stripped;
    if At(der, start, DerInteger(b)) {
      IntegerParts(der, start, b);
      ContentFacts(b);
    }
    index := start;
    if index >= |der| || der[index] != 0x02 {
      return None, index;
    }
    index := index + 1;
    var length;
    length, index := ReadLength(der, index);
    if length.None? || !(1 <= length.value <= 33) || index + length.value > |der| {
      return None, index;
    }
    var c := der[index..index + length.value];
    index := index + length.value;
    if c[0] >= 0x80 || !(|c| == 1 || c[0] != 0 || c[1] >= 0x80) {
      return None, index;
    }
    if |c| == 33 && c[0] != 0 {
      return None, index;
    }
    ContentOfPadded(c);
    IntegerAt(der, start, c);
    value := Some(Unsigned(c));
  }

  /** The DER form is two octets of framing and the two integers one after the other. */
  lemma DerParts(der: seq<byte>, jose: seq<byte>)
    requires |jose| == 64
    ensures var first, second := DerInteger(jose[..32]), DerInteger(jose[32..]);
            der == DerOf(jose) <==>
            && |der| >= 2 && der[0] == 0x30 && der[1] as int == |der| - 2
            && At(der, 2, first) && At(der, 2 + |first|, second) && |der| == 2 + |first| + |second|
  {
    var first, second := DerInteger(jose[..32]), DerInteger(jose[32..]);
    AtConcat(der, 2, first, second);
    if |der| >= 2 {
      assert der == [der[0], der[1]] + der[2..];
    }
  }

  /** The buffer of both halves, filled from the right. */
  method Join(first: seq<byte>, second: seq<byte>) returns (r: seq<byte>)
    requires |first| <= 32 && |second| <= 32
    ensures r == Padded(first) + Padded(second)
  {
    var jose := new byte[64](_ => 0);
    forall k | 0 <= k < |first| {
      jose[32 - |first| + k] := first[k];
    }
    forall k | 0 <= k < |second| {
      jose[64 - |second| + k] := second[k];
    }
    r := jose[..];
  }

  /** The signature of which a byte string is the DER form, if there is one, and zeros otherwise. */
  ghost function Hint(der: seq<byte>): (jose: seq<byte>)
    ensures |jose| == 64
    ensures (exists j: seq<byte> :: |j| == 64 && der == DerOf(j)) ==> der == DerOf(jose)
  {
    if j: seq<byte> :| |j| == 64 && der == DerOf(j) then j else Zeros(64)
  }

  /** Accepts exactly the DER forms, and returns the signature it is the form of. */
  method DerToJose(der: seq<byte>) returns (r: Option<seq<byte>>)
    ensures r.Some? <==> exists jose: seq<byte> :: |jose| == 64 && der == DerOf(jose)
    ensures r.Some? ==> |r.value| == 64 && der == DerOf(r.value)
  {
    ghost var hint := Hint(der);
    DerParts(der, hint);
    if |der| == 0 || der[0] != 0x30 {
      return None;
    }
    var sequenceLength, index := ReadLength(der, 1);
    if sequenceLength.None? || sequenceLength.value != |der| - index {
      return None;
    }
    var first, second;
    ghost var start := index;
    first, index := ReadInteger(der, index, hint[..32]);
    if first.None? {
      return None;
    }
    second, index := ReadInteger(der, index, hint[32..]);
    if second.None? || index != |der| {
      return None;
    }
    var jose := Join(first.value, second.value);
    assert jose[..32] == Padded(first.value) && jose[32..] == Padded(second.value);
    DerParts(der, jose);
    r := Some(jose);
  }

  lemma IntegerDetermines(der: seq<byte>, start: nat, a: seq<byte>, b: seq<byte>)
    requires |a| == 32 && |b| == 32 && At(der, start, DerInteger(a)) && At(der, start, DerInteger(b))
    ensures a == b
  {
    IntegerParts(der, start, a);
    IntegerParts(der, start, b);
    ContentFacts(a);
    ContentFacts(b);
  }

  /** The DER form determines the signature, so the two conversions are mutually inverse. */
  lemma DerOfInjective(a: seq<byte>, b: seq<byte>)
    requires |a| == 64 && |b| == 64 && DerOf(a) == DerOf(b)
    ensures a == b
  {
    var der := DerOf(a);
    DerParts(der, a);
    DerParts(der, b);
    IntegerDetermines(der, 2, a[..32], b[..32]);
    IntegerDetermines(der, 2 + |DerInteger(a[..32])|, a[32..], b[32..]);
    assert a == a[..32] + a[32..] && b == b[..32] + b[32..];
  }
}
