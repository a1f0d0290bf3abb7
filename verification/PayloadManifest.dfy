/**
 * The canonical manifest of an archive's payload: one line of printed fields per entry, in the unsigned
 * order of the raw names. Two payloads print the same text exactly when they agree on every printed field.
 */
module PayloadManifest {
  import opened Prelude
  import opened Bytes
  import opened ZipFormat
  import Base64Url
  import Sorting
  import Text
  import Utf8

  const MAX_MANIFEST_BYTES := 64 * 1024 * 1024

  /** An entry with the lower-case hexadecimal SHA-256 of its contents. */
  datatype PayloadEntry = PayloadEntry(raw: Entry, sha256: string)

  // ---------- Order of raw names ----------

  /** The sign of the first difference between unsigned bytes, or of the lengths. */
  function Compare(left: seq<byte>, right: seq<byte>): int {
    if left == [] then (if right == [] then 0 else -1)
    else if right == [] then 1
    else if left[0] != right[0] then (if left[0] < right[0] then -1 else 1)
    else Compare(left[1..], right[1..])
  }

  method CompareUnsigned(left: seq<byte>, right: seq<byte>) returns (r: int)
    ensures r == Compare(left, right)
  {
    var length := if |left| < |right| then |left| else |right|;
    for index := 0 to length
      invariant Compare(left, right) == Compare(left[index..], right[index..])
    {
      if left[index] != right[index] {
        return if left[index] < right[index] then -1 else 1;
      }
      assert left[index..][1..] == left[index + 1..] && right[index..][1..] == right[index + 1..];
    }
    return if |left| < |right| then -1 else if |left| > |right| then 1 else 0;
  }

  /** Only equal names compare as equal, and swapping the arguments flips the sign. */
  lemma {:induction false} CompareFlips(a: seq<byte>, b: seq<byte>)
    ensures Compare(a, b) == -Compare(b, a)
    ensures Compare(a, b) == 0 ==> a == b
  {
    if a != [] && b != [] && a[0] == b[0] {
      CompareFlips(a[1..], b[1..]);
      assert [a[0]] + a[1..] == a && [b[0]] + b[1..] == b;
    }
  }

  lemma {:induction false} CompareTransitive(a: seq<byte>, b: seq<byte>, c: seq<byte>)
    requires Compare(a, b) <= 0 && Compare(b, c) <= 0
    ensures Compare(a, c) <= 0
  {
    if a != [] && b != [] && c != [] && a[0] == b[0] && b[0] == c[0] {
      CompareTransitive(a[1..], b[1..], c[1..]);
    }
  }

  /** The names agree up to a position where the first ends or has the smaller byte. */
  predicate PrecedesFrom(a: seq<byte>, b: seq<byte>, k: nat) {
    k <= |a| && k <= |b| && a[..k] == b[..k] && (k == |a| || (k < |b| && a[k] < b[k]))
  }

  /** Lexicographic order of unsigned bytes. */
  predicate Precedes(a: seq<byte>, b: seq<byte>) {
    exists k :: 0 <= k <= |a| && PrecedesFrom(a, b, k)
  }

  lemma {:induction false} ComparePrecedes(a: seq<byte>, b: seq<byte>)
    ensures Compare(a, b) <= 0 ==> Precedes(a, b)
  {
    if a == [] || (b != [] && a[0] < b[0]) {
      assert PrecedesFrom(a, b, 0);
    } else if b != [] && a[0] == b[0] && Compare(a, b) <= 0 {
      ComparePrecedes(a[1..], b[1..]);
      var k :| 0 <= k <= |a[1..]| && PrecedesFrom(a[1..], b[1..], k);
      assert a[..k + 1] == [a[0]] + a[1..][..k] && b[..k + 1] == [b[0]] + b[1..][..k];
      assert PrecedesFrom(a, b, k + 1);
    }
  }

  // ---------- Printed fields ----------

  /** What one line shows; CRC, compressed size and offset are not printed. */
  datatype Printed = Printed(
    name: string,
    rawName: seq<byte>,
    sha256: string,
    size: u32,
    versionNeeded: u16,
    flags: u16,
    compression: u16,
    time: u16,
    date: u16,
    madeBy: u16,
    internal: u16,
    external: u32,
    extra: seq<byte>
  )

  function PrintedOf(p: PayloadEntry): Printed {
    var e := p.raw;
    Printed(e.name, e.rawName, p.sha256, e.uncompressed, e.versionNeeded, e.flags, e.compression, e.time, e.date,
            e.madeBy, e.internal, e.external, e.extra)
  }

  predicate IsHexDigit(c: char) {
    '0' <= c <= '9' || 'a' <= c <= 'f'
  }

  predicate IsHex(s: string) {
    forall i :: 0 <= i < |s| ==> IsHexDigit(s[i])
  }

  function Hex(b: seq<byte>): (s: string)
    ensures |s| == 2 * |b| && IsHex(s)
  {
    if b == [] then []
    else
      var n: int := b[0];
      [Text.HexDigit(n / 16), Text.HexDigit(n % 16)] + Hex(b[1..])
  }

  /** The formats %04x and %08x. */
  function Hex4(x: u16): string {
    Hex([x / 256, x % 256])
  }

  function Hex8(x: u32): string {
    Hex4(High(x)) + Hex4(Low(x))
  }

  lemma HexDigitInjective(m: int, n: int)
    requires 0 <= m < 16 && 0 <= n < 16 && Text.HexDigit(m) == Text.HexDigit(n)
    ensures m == n
  {
  }

  lemma {:induction false} HexInjective(a: seq<byte>, b: seq<byte>)
    requires Hex(a) == Hex(b)
    ensures a == b
  {
    assert |Hex(a)| == |Hex(b)|;
    if a != [] {
      var m: int, n: int := a[0], b[0];
      assert Hex(a)[0] == Text.HexDigit(m / 16) && Hex(a)[1] == Text.HexDigit(m % 16);
      assert Hex(b)[0] == Text.HexDigit(n / 16) && Hex(b)[1] == Text.HexDigit(n % 16);
      HexDigitInjective(m / 16, n / 16);
      HexDigitInjective(m % 16, n % 16);
      assert Hex(a)[2..] == Hex(a[1..]) && Hex(b)[2..] == Hex(b[1..]);
      HexInjective(a[1..], b[1..]);
      assert [a[0]] + a[1..] == a && [b[0]] + b[1..] == b;
    }
  }

  lemma Hex4Injective(x: u16, y: u16)
    requires Hex4(x) == Hex4(y)
    ensures x == y
  {
    HexInjective([x / 256, x % 256], [y / 256, y % 256]);
    assert [x / 256, x % 256][0] == [y / 256, y % 256][0] && [x / 256, x % 256][1] == [y / 256, y % 256][1];
  }

  lemma Hex8Injective(x: u32, y: u32)
    requires Hex8(x) == Hex8(y)
    ensures x == y
  {
    assert Hex8(x)[..4] == Hex4(High(x)) && Hex8(y)[..4] == Hex4(High(y));
    assert Hex8(x)[4..] == Hex4(Low(x)) && Hex8(y)[4..] == Hex4(Low(y));
    Hex4Injective(High(x), High(y));
    Hex4Injective(Low(x), Low(y));
  }

  method HexText(bytes: seq<byte>) returns (value: string)
    ensures value == Hex(bytes)
  {
    value := "";
    for i := 0 to |bytes|
      invariant value + Hex(bytes[i..]) == Hex(bytes)
    {
      var n: int := bytes[i];
      assert bytes[i..][1..] == bytes[i + 1..];
      value := value + [Text.HexDigit(n / 16), Text.HexDigit(n % 16)];
    }
  }

  // ---------- Lines ----------

  function Path(name: string): string {
    Base64Url.Encode(Utf8.Encode(name))
  }

  function FieldTexts(f: Printed): (texts: seq<string>)
    ensures |texts| == 13
  {
    [Path(f.name), Hex(f.rawName), f.sha256, Text.Decimal(f.size), Hex4(f.versionNeeded), Hex4(f.flags),
     Hex4(f.compression), Hex4(f.time), Hex4(f.date), Hex4(f.madeBy), Hex4(f.internal), Hex8(f.external), Hex(f.extra)]
  }

  /** Free of the two separators. */
  predicate Clean(s: string) {
    Text.Lacks(s, '\t') && Text.Lacks(s, '\n')
  }

  lemma HexClean(s: string)
    requires IsHex(s)
    ensures Clean(s)
  {
  }

  lemma DecimalClean(n: nat)
    ensures Clean(Text.Decimal(n))
  {
    assert forall i :: 0 <= i < |Text.Decimal(n)| ==> Text.IsDigit(Text.Decimal(n)[i]);
  }

  lemma PathClean(name: string)
    ensures Clean(Path(name))
  {
    assert forall i :: 0 <= i < |Path(name)| ==> Base64Url.IndexOf(Path(name)[i]) >= 0;
  }

  lemma TextsClean(f: Printed)
    requires IsHex(f.sha256)
    ensures forall k :: 0 <= k < 13 ==> Clean(FieldTexts(f)[k])
  {
    hide Clean, Path, Hex, Hex4, Hex8, IsHex, Text.Decimal;
    PathClean(f.name);
    HexClean(Hex(f.rawName));
    HexClean(f.sha256);
    DecimalClean(f.size);
    Hex4Clean(f.versionNeeded);
    Hex4Clean(f.flags);
    Hex4Clean(f.compression);
    Hex4Clean(f.time);
    Hex4Clean(f.date);
    Hex4Clean(f.madeBy);
    Hex4Clean(f.internal);
    Hex8Clean(f.external);
    HexClean(Hex(f.extra));
  }

  lemma Hex4Clean(x: u16)
    ensures Clean(Hex4(x))
  {
    HexClean(Hex4(x));
  }

  lemma Hex8Clean(x: u32)
    ensures Clean(Hex8(x))
  {
    HexClean(Hex8(x));
  }

  function LineText(f: Printed): string {
    Text.Join(FieldTexts(f), '\t')
  }

  lemma LineClean(f: Printed)
    requires IsHex(f.sha256)
    ensures Text.Lacks(LineText(f), '\n')
  {
    hide FieldTexts;
    TextsClean(f);
    Text.JoinLacks(FieldTexts(f), '\t', '\n');
  }

  lemma PathInjective(m: string, n: string)
    requires Path(m) == Path(n)
    ensures m == n
  {
    Base64Url.DecodeEncode(Utf8.Encode(m));
    Base64Url.DecodeEncode(Utf8.Encode(n));
    Utf8.DecodeEncode(m);
    Utf8.DecodeEncode(n);
  }

  lemma TextsInjective(f: Printed, g: Printed)
    requires FieldTexts(f) == FieldTexts(g)
    ensures f == g
  {
    hide Path, Hex, Hex4, Hex8, Text.Decimal;
    var t, u := FieldTexts(f), FieldTexts(g);
    assert t[0] == u[0] && t[1] == u[1] && t[2] == u[2] && t[3] == u[3] && t[4] == u[4] && t[5] == u[5] && t[6] == u[6];
    assert t[7] == u[7] && t[8] == u[8] && t[9] == u[9] && t[10] == u[10] && t[11] == u[11] && t[12] == u[12];
    PathInjective(f.name, g.name);
    HexInjective(f.rawName, g.rawName);
    Text.DecimalInverse(f.size);
    Text.DecimalInverse(g.size);
    Hex4Injective(f.versionNeeded, g.versionNeeded);
    Hex4Injective(f.flags, g.flags);
    Hex4Injective(f.compression, g.compression);
    Hex4Injective(f.time, g.time);
    Hex4Injective(f.date, g.date);
    Hex4Injective(f.madeBy, g.madeBy);
    Hex4Injective(f.internal, g.internal);
    Hex8Injective(f.external, g.external);
    HexInjective(f.extra, g.extra);
  }

  /** A line determines every printed field. */
  lemma LineInjective(f: Printed, g: Printed)
    requires IsHex(f.sha256) && IsHex(g.sha256) && LineText(f) == LineText(g)
    ensures f == g
  {
    hide FieldTexts;
    TextsClean(f);
    TextsClean(g);
    Text.SplitJoin(FieldTexts(f), '\t');
    Text.SplitJoin(FieldTexts(g), '\t');
    TextsInjective(f, g);
  }

  function Lines(fs: seq<Printed>): string {
    if fs == [] then [] else LineText(fs[0]) + ['\n'] + Lines(fs[1..])
  }

  predicate AllHex(fs: seq<Printed>) {
    forall i :: 0 <= i < |fs| ==> IsHex(fs[i].sha256)
  }

  lemma {:induction false} LinesInjective(fs: seq<Printed>, gs: seq<Printed>)
    requires AllHex(fs) && AllHex(gs) && Lines(fs) == Lines(gs)
    ensures fs == gs
  {
    hide LineText;
    if fs != [] && gs != [] {
      LineClean(fs[0]);
      LineClean(gs[0]);
      Text.FirstPiece(LineText(fs[0]), Lines(fs[1..]), LineText(gs[0]), Lines(gs[1..]), '\n');
      LineInjective(fs[0], gs[0]);
      LinesInjective(fs[1..], gs[1..]);
      assert [fs[0]] + fs[1..] == fs && [gs[0]] + gs[1..] == gs;
    }
  }

  // ---------- The manifest ----------

  const SCHEMA := "latchway.android-aab-presign-payload.v1"

  /** The columns of a line, in order. */
  const FIELD_NAMES := [
    "path_utf8_base64url", "raw_name_hex", "content_sha256", "size", "version_needed_hex", "flags_hex", "method_hex",
    "dos_time_hex", "dos_date_hex", "made_by_hex", "internal_attributes_hex", "external_mode_hex", "extra_hex"]

  /** Names with a backslash and the letter t in between, as the header spells the separator. */
  function JoinNames(names: seq<string>): string {
    if names == [] then "" else if |names| == 1 then names[0] else names[0] + "\\t" + JoinNames(names[1..])
  }

  // ---------- Reading a line back ----------

  /** The number that hexadecimal digits spell. */
  function HexNumber(s: string): nat
    requires IsHex(s)
  {
    if s == [] then 0 else HexNumber(s[..|s| - 1]) * 16 + Text.HexValue(s[|s| - 1])
  }

  /** The bytes that pairs of hexadecimal digits spell. */
  function HexBytes(s: string): seq<byte>
    requires IsHex(s) && |s| % 2 == 0
  {
    if s == [] then [] else [Text.HexValue(s[0]) * 16 + Text.HexValue(s[1])] + HexBytes(s[2..])
  }

  /** A word in exactly so many hexadecimal digits. */
  predicate SpellsWord(s: string, digits: nat, x: nat) {
    |s| == digits && IsHex(s) && HexNumber(s) == x
  }

  predicate SpellsBytes(s: string, b: seq<byte>) {
    IsHex(s) && |s| % 2 == 0 && HexBytes(s) == b
  }

  predicate SpellsName(s: string, name: string) {
    Base64Url.Decode(s).Some? && Utf8.Decode(Base64Url.Decode(s).value) == Some(name)
  }

  predicate SpellsSize(s: string, n: nat) {
    s != "" && (forall i :: 0 <= i < |s| ==> Text.IsDigit(s[i])) && Text.DecimalValue(s) == n
  }

  /** Each column, under its name, shows the field of the entry that the name says. */
  predicate Shows(columns: seq<string>, p: PayloadEntry) {
    && |columns| == |FIELD_NAMES| == 13
    && FIELD_NAMES[0] == "path_utf8_base64url" && SpellsName(columns[0], p.raw.name)
    && FIELD_NAMES[1] == "raw_name_hex" && SpellsBytes(columns[1], p.raw.rawName)
    && FIELD_NAMES[2] == "content_sha256" && columns[2] == p.sha256
    && FIELD_NAMES[3] == "size" && SpellsSize(columns[3], p.raw.uncompressed)
    && FIELD_NAMES[4] == "version_needed_hex" && SpellsWord(columns[4], 4, p.raw.versionNeeded)
    && FIELD_NAMES[5] == "flags_hex" && SpellsWord(columns[5], 4, p.raw.flags)
    && FIELD_NAMES[6] == "method_hex" && SpellsWord(columns[6], 4, p.raw.compression)
    && FIELD_NAMES[7] == "dos_time_hex" && SpellsWord(columns[7], 4, p.raw.time)
    && FIELD_NAMES[8] == "dos_date_hex" && SpellsWord(columns[8], 4, p.raw.date)
    && FIELD_NAMES[9] == "made_by_hex" && SpellsWord(columns[9], 4, p.raw.madeBy)
    && FIELD_NAMES[10] == "internal_attributes_hex" && SpellsWord(columns[10], 4, p.raw.internal)
    && FIELD_NAMES[11] == "external_mode_hex" && SpellsWord(columns[11], 8, p.raw.external)
    && FIELD_NAMES[12] == "extra_hex" && SpellsBytes(columns[12], p.raw.extra)
  }

  lemma HexDigitReads(n: int)
    requires 0 <= n < 16
    ensures Text.HexValue(Text.HexDigit(n)) == n && IsHexDigit(Text.HexDigit(n))
  {
  }

  lemma {:induction false} BytesRead(b: seq<byte>)
    ensures SpellsBytes(Hex(b), b)
  {
    hide Text.HexValue, Text.HexDigit, IsHex;
    if b != [] {
      var n: int := b[0];
      BytesRead(b[1..]);
      HexDigitReads(n / 16);
      HexDigitReads(n % 16);
      assert Hex(b)[2..] == Hex(b[1..]);
      assert [b[0]] + b[1..] == b;
    }
  }

  lemma AppendHexDigit(s: string, n: int)
    requires IsHex(s) && 0 <= n < 16
    ensures IsHex(s + [Text.HexDigit(n)]) && HexNumber(s + [Text.HexDigit(n)]) == HexNumber(s) * 16 + n
  {
    HexDigitReads(n);
    assert (s + [Text.HexDigit(n)])[..|s|] == s;
  }

  lemma ByteReads(s: string, n: byte)
    requires IsHex(s)
    ensures IsHex(s + Hex([n])) && HexNumber(s + Hex([n])) == HexNumber(s) * 256 + n
  {
    var m: int := n;
    AppendHexDigit(s, m / 16);
    AppendHexDigit(s + [Text.HexDigit(m / 16)], m % 16);
    assert [n][1..] == [];
    assert s + Hex([n]) == s + [Text.HexDigit(m / 16)] + [Text.HexDigit(m % 16)];
  }

  lemma WordReads(s: string, x: u16)
    requires IsHex(s)
    ensures |Hex4(x)| == 4 && IsHex(s + Hex4(x)) && HexNumber(s + Hex4(x)) == HexNumber(s) * 65536 + x
  {
    hide HexNumber;
    ByteReads(s, x / 256);
    ByteReads(s + Hex([x / 256]), x % 256);
    assert [x / 256, x % 256][1..] == [x % 256] && [x / 256][1..] == [];
    assert s + Hex4(x) == s + Hex([x / 256]) + Hex([x % 256]);
  }

  lemma Hex4Reads(x: u16)
    ensures SpellsWord(Hex4(x), 4, x)
  {
    WordReads("", x);
    assert "" + Hex4(x) == Hex4(x);
  }

  lemma Hex8Reads(x: u32)
    ensures SpellsWord(Hex8(x), 8, x)
  {
    Hex4Reads(High(x));
    WordReads(Hex4(High(x)), Low(x));
  }

  lemma NameReads(name: string)
    ensures SpellsName(Path(name), name)
  {
    Base64Url.DecodeEncode(Utf8.Encode(name));
    Utf8.DecodeEncode(name);
  }

  lemma SizeReads(n: nat)
    ensures SpellsSize(Text.Decimal(n), n)
  {
    Text.DecimalInverse(n);
  }

  /** Whoever splits a line at its tabs gets back every field of the entry, in the order of the header. */
  lemma LineShows(p: PayloadEntry)
    requires IsHex(p.sha256)
    ensures Shows(Text.Split(LineText(PrintedOf(p)), '\t'), p)
  {
    hide SpellsName, SpellsBytes, SpellsSize, SpellsWord, Path, Hex, Hex4, Hex8, Text.Decimal, Text.Split, Text.Join;
    var f := PrintedOf(p);
    TextsClean(f);
    Text.SplitJoin(FieldTexts(f), '\t');
    NameReads(p.raw.name);
    BytesRead(p.raw.rawName);
    SizeReads(p.raw.uncompressed);
    Hex4Reads(p.raw.versionNeeded);
    Hex4Reads(p.raw.flags);
    Hex4Reads(p.raw.compression);
    Hex4Reads(p.raw.time);
    Hex4Reads(p.raw.date);
    Hex4Reads(p.raw.madeBy);
    Hex4Reads(p.raw.internal);
    Hex8Reads(p.raw.external);
    BytesRead(p.raw.extra);
  }

  // ---------- The whole text ----------

  /** The four fixed lines. */
  function Header(): string {
    "schema=" + SCHEMA + "\n" +
    "sort=raw_name_unsigned_byte_lexicographic\n" +
    "path_semantics=strict_utf8_when_flag_0800_else_ascii;nfc=true;case_unique=true\n" +
    "fields=" + JoinNames(FIELD_NAMES) + "\n"
  }

  function CountLine(n: nat): string {
    "entry_count=" + Text.Decimal(n)
  }

  function ManifestText(header: string, fs: seq<Printed>): string {
    header + (CountLine(|fs|) + ['\n'] + Lines(fs))
  }

  lemma CountClean(n: nat)
    ensures Text.Lacks(CountLine(n), '\n')
  {
    DecimalClean(n);
  }

  lemma ManifestInjective(header: string, fs: seq<Printed>, gs: seq<Printed>)
    requires AllHex(fs) && AllHex(gs) && ManifestText(header, fs) == ManifestText(header, gs)
    ensures fs == gs
  {
    hide CountLine, Lines;
    assert ManifestText(header, fs)[|header|..] == CountLine(|fs|) + ['\n'] + Lines(fs);
    assert ManifestText(header, gs)[|header|..] == CountLine(|gs|) + ['\n'] + Lines(gs);
    CountClean(|fs|);
    CountClean(|gs|);
    Text.FirstPiece(CountLine(|fs|), Lines(fs), CountLine(|gs|), Lines(gs), '\n');
    LinesInjective(fs, gs);
  }

  function ByRawName(): (PayloadEntry, PayloadEntry) -> bool {
    (x: PayloadEntry, y: PayloadEntry) => Compare(x.raw.rawName, y.raw.rawName) <= 0
  }

  function ByPrintedName(): (Printed, Printed) -> bool {
    (x: Printed, y: Printed) => Compare(x.rawName, y.rawName) <= 0
  }

  lemma RawNameOrder()
    ensures Sorting.IsOrder(ByRawName()) && Sorting.IsOrder(ByPrintedName())
  {
    forall a: seq<byte>, b: seq<byte> ensures Compare(a, b) <= 0 || Compare(b, a) <= 0 {
      CompareFlips(a, b);
    }
    forall a: seq<byte>, b: seq<byte>, c: seq<byte> | Compare(a, b) <= 0 && Compare(b, c) <= 0 ensures Compare(a, c) <= 0 {
      CompareTransitive(a, b, c);
    }
  }

  function Fields(ps: seq<PayloadEntry>): (fs: seq<Printed>)
    ensures |fs| == |ps| && forall i :: 0 <= i < |ps| ==> fs[i] == PrintedOf(ps[i])
  {
    if ps == [] then [] else [PrintedOf(ps[0])] + Fields(ps[1..])
  }

  /** The fields in the order in which the manifest prints them. */
  function CanonicalFields(ps: seq<PayloadEntry>): seq<Printed> {
    Fields(Sorting.Sort(ps, ByRawName()))
  }

  /** The text once the first lines are printed. */
  function Output(header: string, fs: seq<Printed>, i: nat): string
    requires i <= |fs|
  {
    header + (CountLine(|fs|) + ['\n'] + Lines(fs[..i]))
  }

  lemma {:induction false} LinesAppend(fs: seq<Printed>, f: Printed)
    ensures Lines(fs + [f]) == Lines(fs) + (LineText(f) + ['\n'])
  {
    hide LineText;
    if fs == [] {
      assert ([] + [f])[1..] == [];
    } else {
      assert (fs + [f])[1..] == fs[1..] + [f];
      LinesAppend(fs[1..], f);
    }
  }

  lemma OutputNext(header: string, fs: seq<Printed>, i: nat)
    requires i < |fs|
    ensures Output(header, fs, i + 1) == Output(header, fs, i) + (LineText(fs[i]) + ['\n'])
  {
    hide LineText, CountLine, Lines;
    assert fs[..i + 1] == fs[..i] + [fs[i]];
    LinesAppend(fs[..i], fs[i]);
  }

  lemma {:induction false} OutputGrows(header: string, fs: seq<Printed>, i: nat)
    requires i <= |fs|
    ensures |Output(header, fs, i)| <= |ManifestText(header, fs)|
    ensures i == |fs| ==> Output(header, fs, i) == ManifestText(header, fs)
    decreases |fs| - i
  {
    hide LineText, CountLine, Lines;
    if i == |fs| {
      assert fs[..i] == fs;
    } else {
      OutputNext(header, fs, i);
      OutputGrows(header, fs, i + 1);
    }
  }

  function WithNewlines(lines: seq<string>): string {
    if lines == [] then "" else lines[0] + "\n" + WithNewlines(lines[1..])
  }

  /** The text is the header, the count and one line for each entry, which shows it. */
  predicate Lists(text: string, es: seq<PayloadEntry>, lines: seq<string>) {
    && |lines| == |es| && text == Header() + ("entry_count=" + Text.Decimal(|es|) + "\n" + WithNewlines(lines))
    && forall k :: 0 <= k < |es| ==> Text.Lacks(lines[k], '\n') && Shows(Text.Split(lines[k], '\t'), es[k])
  }

  predicate InOrder(es: seq<PayloadEntry>) {
    forall i, j :: 0 <= i < j < |es| ==> Precedes(es[i].raw.rawName, es[j].raw.rawName)
  }

  lemma SortedInOrder(es: seq<PayloadEntry>)
    requires Sorting.Sorted(es, ByRawName())
    ensures InOrder(es)
  {
    hide Compare, Precedes;
    forall i, j | 0 <= i < j < |es| ensures Precedes(es[i].raw.rawName, es[j].raw.rawName) {
      ComparePrecedes(es[i].raw.rawName, es[j].raw.rawName);
    }
  }

  /** The text lists exactly the given entries, in the order of their raw names. */
  ghost predicate IsManifest(text: string, input: seq<PayloadEntry>) {
    exists es, lines :: multiset(es) == multiset(input) && InOrder(es) && Lists(text, es, lines)
  }

  lemma {:induction false} LinesOf(es: seq<PayloadEntry>) returns (lines: seq<string>)
    requires forall k :: 0 <= k < |es| ==> IsHex(es[k].sha256)
    ensures |lines| == |es| && WithNewlines(lines) == Lines(Fields(es))
    ensures forall k :: 0 <= k < |es| ==> Text.Lacks(lines[k], '\n') && Shows(Text.Split(lines[k], '\t'), es[k])
  {
    hide Shows, LineText, PrintedOf, Text.Split;
    lines := [];
    if es != [] {
      var rest := LinesOf(es[1..]);
      var f := PrintedOf(es[0]);
      assert f.sha256 == es[0].sha256 by {
        PrintedSha(es[0]);
      }
      LineClean(f);
      LineShows(es[0]);
      assert Fields(es)[1..] == Fields(es[1..]);
      lines := [LineText(f)] + rest;
      assert lines[1..] == rest;
    }
  }

  lemma PrintedSha(p: PayloadEntry)
    ensures PrintedOf(p).sha256 == p.sha256
  {
  }

  /** What the printer produces is the manifest of its input. */
  lemma ManifestLists(input: seq<PayloadEntry>)
    requires forall k :: 0 <= k < |input| ==> IsHex(input[k].sha256)
    ensures IsManifest(ManifestText(Header(), CanonicalFields(input)), input)
  {
    hide Header, Shows, Fields, Lines, WithNewlines, ByRawName, Text.Split;
    var es := Sorting.Sort(input, ByRawName());
    RawNameOrder();
    Sorting.SortSorts(input, ByRawName());
    SortedInOrder(es);
    forall k | 0 <= k < |es| ensures IsHex(es[k].sha256) {
      assert es[k] in multiset(input);
    }
    var lines := LinesOf(es);
    assert CountLine(|es|) + ['\n'] + Lines(Fields(es)) == "entry_count=" + Text.Decimal(|es|) + "\n" + WithNewlines(lines);
    assert Lists(ManifestText(Header(), CanonicalFields(input)), es, lines);
  }

  /**
   * Sorts and prints; the size bound, checked after every line, rejects exactly the manifests whose
   * complete text exceeds it.
   */
  method CanonicalPayloadManifest(input: seq<PayloadEntry>) returns (r: Result<string>)
    ensures r.Ok? && (forall k :: 0 <= k < |input| ==> IsHex(input[k].sha256)) ==> IsManifest(r.value, input)
    ensures r.Ok? ==> r.value == ManifestText(Header(), CanonicalFields(input))
    ensures r.Ok? && input != [] ==> |r.value| <= MAX_MANIFEST_BYTES
    ensures r.Rejected? ==> |ManifestText(Header(), CanonicalFields(input))| > MAX_MANIFEST_BYTES
  {
    hide Header, LineText, ByRawName, Output, ManifestText, CountLine, PrintedOf;
    var entries := Sorting.Sort(input, ByRawName());
    SameLength(input);
    ghost var fs := CanonicalFields(input);
    var output := Header() + (CountLine(|entries|) + ['\n']);
    OutputStart(Header(), fs);
    for i := 0 to |entries|
      invariant output == Output(Header(), fs, i)
      invariant i > 0 ==> |output| <= MAX_MANIFEST_BYTES
    {
      OutputNext(Header(), fs, i);
      output := output + (LineText(PrintedOf(entries[i])) + ['\n']);
      if |output| > MAX_MANIFEST_BYTES {
        OutputGrows(Header(), fs, i + 1);
        return Rejected;
      }
    }
    OutputGrows(Header(), fs, |fs|);
    hide IsManifest, IsHex;
    if forall k :: 0 <= k < |input| ==> IsHex(input[k].sha256) {
      ManifestLists(input);
    }
    r := Ok(output);
  }

  lemma OutputStart(header: string, fs: seq<Printed>)
    ensures Output(header, fs, 0) == header + (CountLine(|fs|) + ['\n'])
  {
  }

  lemma SameLength(ps: seq<PayloadEntry>)
    ensures |Sorting.Sort(ps, ByRawName())| == |ps|
  {
    Sorting.SameLength(Sorting.Sort(ps, ByRawName()), ps);
  }

  // ---------- What the text identifies ----------

  /** Entries of one accepted archive, with the digests of their contents. */
  predicate FromArchive(rules: Rules, ps: seq<PayloadEntry>) {
    && (forall i :: 0 <= i < |ps| ==> EntryOk(rules, ps[i].raw) && IsHex(ps[i].sha256))
    && (forall i, j :: 0 <= i < j < |ps| ==> Fold(rules, ps[i].raw) != Fold(rules, ps[j].raw))
  }

  /** The chosen directory entries of an archive, each with the digest of its contents. */
  function Chosen(central: seq<Entry>, picks: seq<nat>, digests: seq<seq<byte>>): (ps: seq<PayloadEntry>)
    requires |digests| == |picks| && forall i :: 0 <= i < |picks| ==> picks[i] < |central|
  {
    seq(|picks|, i requires 0 <= i < |picks| => PayloadEntry(central[picks[i]], Hex(digests[i])))
  }

  /** Whatever entries of an accepted archive make up the payload, each once and in any order, it is one. */
  lemma AcceptedPayload(rules: Rules, a: Archive, file: seq<byte>, picks: seq<nat>, digests: seq<seq<byte>>)
    requires Partitions(rules, a, file) && |digests| == |picks|
    requires forall i :: 0 <= i < |picks| ==> picks[i] < |a.central|
    requires forall i, j :: 0 <= i < j < |picks| ==> picks[i] != picks[j]
    ensures FromArchive(rules, Chosen(a.central, picks, digests))
  {
    hide EntryOk, Hex, Fold, Render, Fits, ExpandedSize, InPlace;
    var ps := Chosen(a.central, picks, digests);
    forall i, j | 0 <= i < j < |ps| ensures Fold(rules, ps[i].raw) != Fold(rules, ps[j].raw) {
      if picks[i] < picks[j] {
        assert Fold(rules, a.central[picks[i]]) != Fold(rules, a.central[picks[j]]);
      } else {
        assert Fold(rules, a.central[picks[j]]) != Fold(rules, a.central[picks[i]]);
      }
    }
  }

  /** The raw name alone determines the decoded name, whatever the flags say. */
  lemma RawNameDetermines(rules: Rules, d: Entry, e: Entry)
    requires EntryOk(rules, d) && EntryOk(rules, e) && d.rawName == e.rawName
    ensures d.name == e.name
  {
    hide SafeName, FlagsOk, ExtraOk, AttributesOk, CanonicalVersion;
    if IsPrintableAscii(d.rawName) {
      Utf8.DecodeAscii(d.rawName);
    }
  }

  /** Within an archive a raw name identifies its entry. */
  lemma RawNamesDistinct(rules: Rules, ps: seq<PayloadEntry>, i: nat, j: nat)
    requires FromArchive(rules, ps) && i < |ps| && j < |ps| && ps[i].raw.rawName == ps[j].raw.rawName
    ensures i == j
  {
    hide EntryOk;
    RawNameDetermines(rules, ps[i].raw, ps[j].raw);
    assert Fold(rules, ps[i].raw) == Fold(rules, ps[j].raw);
  }

  lemma {:induction false} FieldsOfInsert(x: PayloadEntry, ps: seq<PayloadEntry>, le: (PayloadEntry, PayloadEntry) -> bool)
    ensures multiset(Fields(Sorting.Insert(x, ps, le))) == multiset(Fields(ps)) + multiset{PrintedOf(x)}
  {
    if ps != [] && !le(x, ps[0]) {
      FieldsOfInsert(x, ps[1..], le);
    }
  }

  /** Sorting permutes the printed fields. */
  lemma {:induction false} FieldsOfSort(ps: seq<PayloadEntry>, le: (PayloadEntry, PayloadEntry) -> bool)
    ensures multiset(Fields(Sorting.Sort(ps, le))) == multiset(Fields(ps))
  {
    if ps != [] {
      FieldsOfSort(ps[1..], le);
      FieldsOfInsert(ps[0], Sorting.Sort(ps[1..], le), le);
    }
  }

  lemma CanonicalShape(rules: Rules, ps: seq<PayloadEntry>)
    requires FromArchive(rules, ps)
    ensures var fs := CanonicalFields(ps);
      && multiset(fs) == multiset(Fields(ps)) && AllHex(fs)
      && Sorting.Sorted(fs, ByPrintedName()) && Sorting.Untied(fs, ByPrintedName())
  {
    hide EntryOk, PrintedOf;
    var sorted, fs := Sorting.Sort(ps, ByRawName()), CanonicalFields(ps);
    RawNameOrder();
    Sorting.SortSorts(ps, ByRawName());
    FieldsOfSort(ps, ByRawName());
    forall i | 0 <= i < |sorted| ensures sorted[i] in ps {
      assert sorted[i] in multiset(ps);
    }
    CanonicalHex(rules, ps, sorted);
    CanonicalOrder(rules, ps, sorted);
  }

  lemma CanonicalHex(rules: Rules, ps: seq<PayloadEntry>, sorted: seq<PayloadEntry>)
    requires FromArchive(rules, ps) && forall i :: 0 <= i < |sorted| ==> sorted[i] in ps
    ensures AllHex(Fields(sorted))
  {
    hide EntryOk;
  }

  lemma CanonicalOrder(rules: Rules, ps: seq<PayloadEntry>, sorted: seq<PayloadEntry>)
    requires FromArchive(rules, ps) && Sorting.Sorted(sorted, ByRawName())
    requires forall i :: 0 <= i < |sorted| ==> sorted[i] in ps
    ensures Sorting.Sorted(Fields(sorted), ByPrintedName()) && Sorting.Untied(Fields(sorted), ByPrintedName())
  {
    hide EntryOk, FromArchive, Compare, Fold;
    var fs := Fields(sorted);
    forall i, j | && 0 <= i < |fs| && 0 <= j < |fs| && Compare(fs[i].rawName, fs[j].rawName) <= 0
                  && Compare(fs[j].rawName, fs[i].rawName) <= 0
      ensures fs[i] == fs[j]
    {
      CompareFlips(fs[i].rawName, fs[j].rawName);
      var a :| 0 <= a < |ps| && ps[a] == sorted[i];
      var b :| 0 <= b < |ps| && ps[b] == sorted[j];
      RawNamesDistinct(rules, ps, a, b);
    }
  }

  /** The entries agree on everything that is printed; CRC, compressed size and offset are not. */
  predicate SameRecord(p: PayloadEntry, q: PayloadEntry) {
    && p.raw.name == q.raw.name && p.raw.rawName == q.raw.rawName && p.sha256 == q.sha256
    && p.raw.uncompressed == q.raw.uncompressed && p.raw.versionNeeded == q.raw.versionNeeded
    && p.raw.flags == q.raw.flags && p.raw.compression == q.raw.compression
    && p.raw.time == q.raw.time && p.raw.date == q.raw.date && p.raw.madeBy == q.raw.madeBy
    && p.raw.internal == q.raw.internal && p.raw.external == q.raw.external && p.raw.extra == q.raw.extra
  }

  lemma PrintedSame(p: PayloadEntry, q: PayloadEntry)
    ensures PrintedOf(p) == PrintedOf(q) <==> SameRecord(p, q)
  {
  }

  /** Each entry of one payload has its own partner in the other, with the same record. */
  predicate Pairs(ps: seq<PayloadEntry>, qs: seq<PayloadEntry>, partner: seq<nat>) {
    && |ps| == |qs| == |partner|
    && (forall i :: 0 <= i < |ps| ==> partner[i] < |qs| && SameRecord(ps[i], qs[partner[i]]))
    && forall i, j :: 0 <= i < j < |partner| ==> partner[i] != partner[j]
  }

  ghost predicate SameRecords(ps: seq<PayloadEntry>, qs: seq<PayloadEntry>) {
    exists partner :: Pairs(ps, qs, partner)
  }

  lemma FieldsDistinct(rules: Rules, ps: seq<PayloadEntry>, i: nat, j: nat)
    requires FromArchive(rules, ps) && i < |ps| && j < |ps| && Fields(ps)[i] == Fields(ps)[j]
    ensures i == j
  {
    hide FromArchive;
    RawNamesDistinct(rules, ps, i, j);
  }

  lemma FindField(fs: seq<Printed>, f: Printed) returns (j: nat)
    requires f in multiset(fs)
    ensures j < |fs| && fs[j] == f
  {
    assert f in fs;
    j :| 0 <= j < |fs| && fs[j] == f;
  }

  /** The partners of the first entries, by their records. */
  lemma {:induction false} PartnersOf(rules: Rules, ps: seq<PayloadEntry>, qs: seq<PayloadEntry>, n: nat)
    returns (partner: seq<nat>)
    requires FromArchive(rules, ps) && multiset(Fields(ps)) == multiset(Fields(qs)) && n <= |ps|
    ensures |partner| == n
    ensures forall i :: 0 <= i < n ==> partner[i] < |qs| && Fields(qs)[partner[i]] == Fields(ps)[i]
  {
    hide FromArchive, Fields;
    partner := [];
    if n > 0 {
      partner := PartnersOf(rules, ps, qs, n - 1);
      assert Fields(ps)[n - 1] in multiset(Fields(ps));
      var j := FindField(Fields(qs), Fields(ps)[n - 1]);
      partner := partner + [j];
    }
  }

  lemma SameCount(fs: seq<Printed>, gs: seq<Printed>)
    requires multiset(fs) == multiset(gs)
    ensures |fs| == |gs|
  {
    assert |multiset(fs)| == |fs|;
  }

  lemma SameFieldsPair(rules: Rules, ps: seq<PayloadEntry>, qs: seq<PayloadEntry>)
    requires FromArchive(rules, ps) && multiset(Fields(ps)) == multiset(Fields(qs))
    ensures SameRecords(ps, qs)
  {
    hide FromArchive, PrintedOf, SameRecord;
    var partner := PartnersOf(rules, ps, qs, |ps|);
    SameCount(Fields(ps), Fields(qs));
    forall i | 0 <= i < |ps| ensures SameRecord(ps[i], qs[partner[i]]) {
      PrintedSame(ps[i], qs[partner[i]]);
    }
    forall i, j | 0 <= i < j < |partner| ensures partner[i] != partner[j] {
      if partner[i] == partner[j] {
        FieldsDistinct(rules, ps, i, j);
      }
    }
    assert Pairs(ps, qs, partner);
  }

  /** A sequence without repetitions, all of whose elements are in another of its length, permutes it. */
  lemma {:induction false} WithinIsPermutation<T>(xs: seq<T>, ys: seq<T>)
    requires |xs| == |ys| && forall i, j :: 0 <= i < j < |xs| ==> xs[i] != xs[j]
    requires forall i :: 0 <= i < |xs| ==> xs[i] in ys
    ensures multiset(xs) == multiset(ys)
  {
    OnceEach(xs);
    forall x ensures multiset(xs)[x] <= multiset(ys)[x] {
      if x in xs {
        assert x in multiset(ys);
      }
    }
    var rest := multiset(ys) - multiset(xs);
    assert |rest| == 0;
    assert multiset(ys) == multiset(xs) + rest;
  }

  lemma {:induction false} OnceEach<T>(xs: seq<T>)
    requires forall i, j :: 0 <= i < j < |xs| ==> xs[i] != xs[j]
    ensures forall x :: multiset(xs)[x] <= 1
  {
    if xs != [] {
      var front, last := xs[..|xs| - 1], xs[|xs| - 1];
      OnceEach(front);
      assert last !in front;
      assert xs == front + [last];
    }
  }

  lemma PairsSameFields(rules: Rules, ps: seq<PayloadEntry>, qs: seq<PayloadEntry>, partner: seq<nat>)
    requires FromArchive(rules, ps) && Pairs(ps, qs, partner)
    ensures multiset(Fields(ps)) == multiset(Fields(qs))
  {
    hide FromArchive, PrintedOf, SameRecord;
    var fs, gs := Fields(ps), Fields(qs);
    forall i | 0 <= i < |fs| ensures fs[i] in gs {
      PrintedSame(ps[i], qs[partner[i]]);
      assert gs[partner[i]] == fs[i];
    }
    forall i, j | 0 <= i < j < |fs| ensures fs[i] != fs[j] {
      if fs[i] == fs[j] {
        FieldsDistinct(rules, ps, i, j);
      }
    }
    WithinIsPermutation(fs, gs);
  }

  /**
   * Two payloads print the same manifest exactly when their entries match one to one on every printed field:
   * the text does not depend on the order of the input, and nothing printed can differ without changing it.
   */
  lemma SameTextIffSameRecords(rules: Rules, ps: seq<PayloadEntry>, qs: seq<PayloadEntry>)
    requires FromArchive(rules, ps) && FromArchive(rules, qs)
    ensures ManifestText(Header(), CanonicalFields(ps)) == ManifestText(Header(), CanonicalFields(qs))
       <==> SameRecords(ps, qs)
  {
    hide Header, FromArchive, CanonicalFields, ManifestText, Pairs;
    var fs, gs := CanonicalFields(ps), CanonicalFields(qs);
    CanonicalShape(rules, ps);
    CanonicalShape(rules, qs);
    if ManifestText(Header(), fs) == ManifestText(Header(), gs) {
      ManifestInjective(Header(), fs, gs);
      SameFieldsPair(rules, ps, qs);
    } else if SameRecords(ps, qs) {
      var partner :| Pairs(ps, qs, partner);
      PairsSameFields(rules, ps, qs, partner);
      Sorting.SortedUnique(fs, gs, ByPrintedName());
    }
  }
}
