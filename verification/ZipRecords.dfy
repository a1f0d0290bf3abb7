/**
 * Reading and checking one record of an archive: fixed-size reads at offsets and the checks on single
 * fields. Every method is proved to accept exactly what ZipFormat describes.
 */
module ZipRecords {
  import opened Prelude
  import opened Bytes
  import opened ZipFormat
  import Text
  import Utf8

  // ---------- What the fixed-size reads see ----------

  /** The fields of a central header, as the reads at constant offsets see them. */
  predicate CentralFields(s: seq<byte>, pos: nat, e: Entry)
    requires pos + 46 <= |s|
  {
    && U32(s, pos) == CENTRAL_HEADER_SIGNATURE
    && U16(s, pos + 4) == e.madeBy && U16(s, pos + 6) == e.versionNeeded && U16(s, pos + 8) == e.flags
    && U16(s, pos + 10) == e.compression && U16(s, pos + 12) == e.time && U16(s, pos + 14) == e.date
    && U32(s, pos + 16) == e.crc && U32(s, pos + 20) == e.compressed && U32(s, pos + 24) == e.uncompressed
    && U16(s, pos + 28) == |e.rawName| && U16(s, pos + 30) == |e.extra|
    && U16(s, pos + 32) == 0 && U16(s, pos + 34) == 0 && U16(s, pos + 36) == e.internal
    && U32(s, pos + 38) == e.external && U32(s, pos + 42) == e.offset
  }

  lemma CentralHeaderAt(s: seq<byte>, pos: nat, e: Entry)
    ensures At(s, pos, CentralHeader(e)) <==> pos + 46 <= |s| && CentralFields(s, pos, e)
  {
    if pos + 46 <= |s| {
      DoubleWord(s, pos, CENTRAL_HEADER_SIGNATURE);
      DoubleWord(s, pos + 16, e.crc);
      DoubleWord(s, pos + 20, e.compressed);
      DoubleWord(s, pos + 24, e.uncompressed);
      DoubleWord(s, pos + 38, e.external);
      DoubleWord(s, pos + 42, e.offset);
    }
    var first := Words12(0x4b50, 0x0201, e.madeBy, e.versionNeeded, e.flags, e.compression, e.time, e.date,
                         Low(e.crc), High(e.crc), Low(e.compressed), High(e.compressed));
    var second := Words11(Low(e.uncompressed), High(e.uncompressed), |e.rawName|, |e.extra|, 0, 0, e.internal,
                          Low(e.external), High(e.external), Low(e.offset), High(e.offset));
    assert CentralHeader(e) == first + second;
    AtConcat(s, pos, first, second);
    Words12At(s, pos, 0x4b50, 0x0201, e.madeBy, e.versionNeeded, e.flags, e.compression, e.time, e.date,
              Low(e.crc), High(e.crc), Low(e.compressed), High(e.compressed));
    Words11At(s, pos + 24, Low(e.uncompressed), High(e.uncompressed), |e.rawName|, |e.extra|, 0, 0, e.internal,
              Low(e.external), High(e.external), Low(e.offset), High(e.offset));
  }

  predicate LocalFields(s: seq<byte>, pos: nat, e: Entry, crc: u32, compressed: u32, uncompressed: u32)
    requires pos + 30 <= |s|
  {
    && U32(s, pos) == LOCAL_HEADER_SIGNATURE
    && U16(s, pos + 4) == e.versionNeeded && U16(s, pos + 6) == e.flags && U16(s, pos + 8) == e.compression
    && U16(s, pos + 10) == e.time && U16(s, pos + 12) == e.date
    && U32(s, pos + 14) == crc && U32(s, pos + 18) == compressed && U32(s, pos + 22) == uncompressed
    && U16(s, pos + 26) == |e.rawName| && U16(s, pos + 28) == |e.extra|
  }

  lemma LocalHeaderAt(s: seq<byte>, pos: nat, e: Entry, crc: u32, compressed: u32, uncompressed: u32)
    ensures At(s, pos, LocalHeader(e, crc, compressed, uncompressed)) <==>
      pos + 30 <= |s| && LocalFields(s, pos, e, crc, compressed, uncompressed)
  {
    if pos + 30 <= |s| {
      DoubleWord(s, pos, LOCAL_HEADER_SIGNATURE);
      DoubleWord(s, pos + 14, crc);
      DoubleWord(s, pos + 18, compressed);
      DoubleWord(s, pos + 22, uncompressed);
    }
    var first := Words12(0x4b50, 0x0403, e.versionNeeded, e.flags, e.compression, e.time, e.date,
                         Low(crc), High(crc), Low(compressed), High(compressed), Low(uncompressed));
    var second := Words3(High(uncompressed), |e.rawName|, |e.extra|);
    assert LocalHeader(e, crc, compressed, uncompressed) == first + second;
    AtConcat(s, pos, first, second);
    Words12At(s, pos, 0x4b50, 0x0403, e.versionNeeded, e.flags, e.compression, e.time, e.date,
              Low(crc), High(crc), Low(compressed), High(compressed), Low(uncompressed));
    Words3At(s, pos + 24, High(uncompressed), |e.rawName|, |e.extra|);
  }

  lemma DescriptorAt(s: seq<byte>, pos: nat, e: Entry)
    ensures At(s, pos, Descriptor(e)) <==>
      && pos + 16 <= |s| && U32(s, pos) == DATA_DESCRIPTOR_SIGNATURE
      && U32(s, pos + 4) == e.crc && U32(s, pos + 8) == e.compressed && U32(s, pos + 12) == e.uncompressed
  {
    if pos + 16 <= |s| {
      DoubleWord(s, pos, DATA_DESCRIPTOR_SIGNATURE);
      DoubleWord(s, pos + 4, e.crc);
      DoubleWord(s, pos + 8, e.compressed);
      DoubleWord(s, pos + 12, e.uncompressed);
    }
    var first := Words4(0x4b50, 0x0807, Low(e.crc), High(e.crc));
    var second := Words4(Low(e.compressed), High(e.compressed), Low(e.uncompressed), High(e.uncompressed));
    AtConcat(s, pos, first, second);
    Words4At(s, pos, 0x4b50, 0x0807, Low(e.crc), High(e.crc));
    Words4At(s, pos + 8, Low(e.compressed), High(e.compressed), Low(e.uncompressed), High(e.uncompressed));
  }

  lemma EndAt(s: seq<byte>, pos: nat, count: u16, size: u32, offset: u32)
    ensures At(s, pos, EndBytes(count, size, offset)) <==>
      && pos + 22 <= |s| && U32(s, pos) == END_OF_CENTRAL_DIRECTORY_SIGNATURE
      && U16(s, pos + 4) == 0 && U16(s, pos + 6) == 0 && U16(s, pos + 8) == count && U16(s, pos + 10) == count
      && U32(s, pos + 12) == size && U32(s, pos + 16) == offset && U16(s, pos + 20) == 0
  {
    if pos + 22 <= |s| {
      DoubleWord(s, pos, END_OF_CENTRAL_DIRECTORY_SIGNATURE);
      DoubleWord(s, pos + 12, size);
      DoubleWord(s, pos + 16, offset);
    }
    Words11At(s, pos, 0x4b50, 0x0605, 0, 0, count, count, Low(size), High(size), Low(offset), High(offset), 0);
  }

  // ---------- Checks on single fields ----------

  /** Masks as sums of the bits they keep. */
  function DeflateBits(flags: u16): int {
    flags / 2 % 2 * 2 + flags / 4 % 2 * 4
  }

  function AllowedBits(flags: u16): int {
    flags / 0x800 % 2 * 0x800 + flags / 8 % 2 * 8 + DeflateBits(flags)
  }

  type bit = n: int | 0 <= n < 2

  function SumOfBits(a: bit, b: bit, c: bit, d: bit): (flags: u16) {
    0x800 * a + 8 * b + 4 * c + 2 * d
  }

  /** A sum of allowed bits passes the masks. */
  lemma SumPasses(a: bit, b: bit, c: bit, d: bit)
    ensures AllowedBits(SumOfBits(a, b, c, d)) == SumOfBits(a, b, c, d)
    ensures DeflateBits(SumOfBits(a, b, c, d)) == 4 * c + 2 * d
  {
    var flags := SumOfBits(a, b, c, d);
    assert flags / 0x800 == a;
    assert flags / 8 == 256 * a + b;
    assert flags / 4 == 512 * a + 2 * b + c;
    assert flags / 2 == 1024 * a + 4 * b + 2 * c + d;
  }

  /** Flags that pass the masks are such a sum. */
  lemma PassesAreSums(flags: u16)
    requires flags == AllowedBits(flags)
    ensures flags == SumOfBits(flags / 0x800 % 2, flags / 8 % 2, flags / 4 % 2, flags / 2 % 2)
  {
  }

  /** The acceptable flags are the sums of allowed bits, without those for deflation in a stored entry. */
  lemma SumsAreOk(a: bit, b: bit, c: bit, d: bit)
    ensures FlagsOk(SumOfBits(a, b, c, d), DEFLATED)
    ensures FlagsOk(SumOfBits(a, b, c, d), STORED) <==> c == 0 && d == 0
  {
  }

  lemma OkAreSums(flags: u16) returns (a: bit, b: bit, c: bit, d: bit)
    requires FlagsOk(flags, DEFLATED) || FlagsOk(flags, STORED)
    ensures flags == SumOfBits(a, b, c, d)
  {
    a := if flags >= 0x800 then 1 else 0;
    var low := flags - 0x800 * a;
    b := if low >= 8 then 1 else 0;
    c := if low - 8 * b >= 4 then 1 else 0;
    d := if low - 8 * b - 4 * c >= 2 then 1 else 0;
  }

  lemma FlagsByMask(flags: u16)
    ensures flags == AllowedBits(flags) <==> FlagsOk(flags, DEFLATED)
    ensures FlagsOk(flags, STORED) <==> flags == AllowedBits(flags) && DeflateBits(flags) == 0
  {
    hide DeflateBits, AllowedBits, FlagsOk, SumOfBits;
    if flags == AllowedBits(flags) {
      var a, b, c, d := flags / 0x800 % 2, flags / 8 % 2, flags / 4 % 2, flags / 2 % 2;
      PassesAreSums(flags);
      SumPasses(a, b, c, d);
      SumsAreOk(a, b, c, d);
    } else if FlagsOk(flags, DEFLATED) || FlagsOk(flags, STORED) {
      var a, b, c, d := OkAreSums(flags);
      SumPasses(a, b, c, d);
    }
  }

  method ValidateFlagsAndMethod(flags: u16, compression: u16) returns (ok: bool)
    ensures ok <==> FlagsOk(flags, compression)
  {
    hide DeflateBits, AllowedBits;
    FlagsByMask(flags);
    if flags != AllowedBits(flags) {
      return false;
    }
    if compression != STORED && compression != DEFLATED {
      return false;
    }
    if compression != DEFLATED && DeflateBits(flags) != 0 {
      return false;
    }
    return true;
  }

  method ValidateExternalAttributes(madeBy: u16, external: u32) returns (ok: bool)
    ensures ok <==> AttributesOk(madeBy, external)
  {
    var host := madeBy / 256 % 256;
    var unixMode := external / 0x1_0000 % 0x1_0000;
    var fileType := unixMode / 0x1000 * 0x1000;
    var specialMode := unixMode / 0x200 % 8 * 0x200;
    var dosAttributes := external % 256;
    if dosAttributes / 8 % 4 * 8 != 0 || specialMode != 0 || (host != 0 && host != 3)
       || (host == 0 && unixMode != 0) || (host == 3 && fileType != 0x8000) {
      return false;
    }
    return true;
  }

  /** Steps over the fields; at most one, of one shape, gets through. */
  method ValidateExtraFields(extra: seq<byte>) returns (ok: bool)
    ensures ok <==> ExtraOk(extra)
  {
    var position, fieldCount := 0, 0;
    while position < |extra|
      invariant 0 <= position <= |extra|
      invariant fieldCount == 0 ==> position == 0
      invariant fieldCount > 0 ==> ExtraOk(extra[..position]) && position == 9
    {
      if |extra| - position < 4 {
        return false;
      }
      var identifier := U16(extra, position);
      var size := U16(extra, position + 2);
      position := position + 4;
      if size > |extra| - position {
        return false;
      }
      fieldCount := fieldCount + 1;
      if fieldCount != 1 || identifier != 0x5455 || size != 5 || extra[position] != 0x01 {
        return false;
      }
      position := position + size;
      assert extra[..position][..5] == [0x55, 0x54, 5, 0, 1];
    }
    assert extra[..position] == extra;
    return true;
  }

  method DecodeName(rawName: seq<byte>, flags: u16) returns (r: Option<string>)
    ensures r == DecodedName(rawName, flags)
  {
    if !IsUtf8(flags) {
      for i := 0 to |rawName|
        invariant forall k :: 0 <= k < i ==> 0x20 <= rawName[k] <= 0x7e
      {
        if rawName[i] < 0x20 || rawName[i] > 0x7e {
          return None;
        }
      }
      return Some(Utf8.Ascii(rawName));
    }
    return Utf8.Decode(rawName);
  }

  lemma LeadingSlash(name: string)
    requires name != "" && name[0] == '/'
    ensures Text.Split(name, '/')[0] == ""
  {
  }

  lemma {:induction false} TrailingSlash(name: string)
    requires name != "" && name[|name| - 1] == '/'
    ensures var pieces := Text.Split(name, '/'); pieces[|pieces| - 1] == ""
  {
    if |name| > 1 {
      TrailingSlash(name[1..]);
    } else {
      assert Text.Split(name, '/') == [[], []];
    }
  }

  method ValidateName(rules: Rules, name: string) returns (ok: bool)
    ensures ok <==> SafeName(rules, name)
  {
    if name == "" {
      assert Text.Split(name, '/')[0] == "";
      return false;
    }
    if name[0] == '/' {
      LeadingSlash(name);
      return false;
    }
    if exists i :: 0 <= i < |name| && (name[i] == '\\' || name[i] as int == 0) {
      return false;
    }
    if name[|name| - 1] == '/' {
      TrailingSlash(name);
      return false;
    }
    if exists i :: 0 <= i < |name| && Text.IsControl(name[i]) {
      return false;
    }
    var components := Text.Split(name, '/');
    for k := 0 to |components|
      invariant forall j :: 0 <= j < k ==> components[j] !in {"", ".", ".."}
    {
      if components[k] == "" || components[k] == "." || components[k] == ".." {
        return false;
      }
    }
    if rules.nfc(name) != name {
      return false;
    }
    return true;
  }

  // ---------- One central directory entry ----------

  /** An acceptable entry whose central header stands at a position. */
  predicate CentralAt(rules: Rules, file: seq<byte>, pos: nat, e: Entry) {
    EntryOk(rules, e) && At(file, pos, CentralBytes(e))
  }

  /** The three parts of a central record, read one after the other. */
  lemma CentralParts(file: seq<byte>, pos: nat, e: Entry)
    ensures At(file, pos, CentralBytes(e)) <==>
      && pos + 46 <= |file| && CentralFields(file, pos, e)
      && At(file, pos + 46, e.rawName) && At(file, pos + 46 + |e.rawName|, e.extra)
  {
    AtConcat(file, pos, CentralHeader(e) + e.rawName, e.extra);
    AtConcat(file, pos, CentralHeader(e), e.rawName);
    CentralHeaderAt(file, pos, e);
  }

  /** At most one acceptable entry stands at a position. */
  lemma CentralUnique(rules: Rules, file: seq<byte>, pos: nat, e: Entry, other: Entry)
    requires CentralAt(rules, file, pos, e) && CentralAt(rules, file, pos, other)
    ensures e == other
  {
    CentralFixes(file, pos, e, other);
  }

  /** The entry that the fixed fields of a header describe, its name still to be decoded. */
  function HeaderEntry(file: seq<byte>, pos: nat, rawName: field, extra: field): Entry
    requires pos + 46 <= |file|
  {
    Entry(rawName, "", U16(file, pos + 6), U16(file, pos + 8), U16(file, pos + 10), U16(file, pos + 12),
          U16(file, pos + 14), U32(file, pos + 16), U32(file, pos + 20), U32(file, pos + 24), U16(file, pos + 4),
          U16(file, pos + 36), U32(file, pos + 38), extra, U32(file, pos + 42))
  }

  /** What the framing of a central record must look like for it to be one. */
  predicate CentralFraming(file: seq<byte>, pos: nat) {
    && pos + 46 <= |file| && U32(file, pos) == CENTRAL_HEADER_SIGNATURE
    && U16(file, pos + 32) == 0 && U16(file, pos + 34) == 0
    && pos + 46 + U16(file, pos + 28) + U16(file, pos + 30) <= |file|
  }

  lemma CentralFramed(file: seq<byte>, pos: nat, e: Entry)
    requires At(file, pos, CentralBytes(e))
    ensures CentralFraming(file, pos)
  {
    CentralParts(file, pos, e);
  }

  lemma HeaderReads(file: seq<byte>, pos: nat, rawName: field, extra: field)
    requires CentralFraming(file, pos) && |rawName| == U16(file, pos + 28) && |extra| == U16(file, pos + 30)
    requires At(file, pos + 46, rawName) && At(file, pos + 46 + |rawName|, extra)
    ensures At(file, pos, CentralBytes(HeaderEntry(file, pos, rawName, extra)))
  {
    CentralParts(file, pos, HeaderEntry(file, pos, rawName, extra));
  }

  /** Reads the fixed fields and the two variable ones. */
  method ReadCentralFields(file: seq<byte>, position: nat) returns (r: Result<Entry>)
    ensures r.Ok? ==> At(file, position, CentralBytes(r.value)) && r.value.name == ""
    ensures r.Rejected? ==> forall e :: !At(file, position, CentralBytes(e))
  {
    forall e | At(file, position, CentralBytes(e)) ensures CentralFraming(file, position) {
      CentralFramed(file, position, e);
    }
    if position + 46 > |file| || U32(file, position) != CENTRAL_HEADER_SIGNATURE {
      return Rejected;
    }
    var nameLength := U16(file, position + 28);
    var extraLength := U16(file, position + 30);
    if U16(file, position + 32) != 0 || U16(file, position + 34) != 0 {
      return Rejected;
    }
    var variableOffset := position + 46;
    if variableOffset + nameLength + extraLength > |file| {
      return Rejected;
    }
    var rawName := file[variableOffset..variableOffset + nameLength];
    var extra := file[variableOffset + nameLength..variableOffset + nameLength + extraLength];
    HeaderReads(file, position, rawName, extra);
    return Ok(HeaderEntry(file, position, rawName, extra));
  }

  /** Decodes the name and applies every check on the metadata of one entry. */
  method CheckEntry(rules: Rules, e: Entry) returns (r: Result<Entry>)
    ensures r.Ok? ==> EntryOk(rules, r.value) && r.value == e.(name := r.value.name)
    ensures r.Rejected? ==> forall name :: !EntryOk(rules, e.(name := name))
  {
    if e.versionNeeded > 20 || e.compressed == MAX_U32 || e.uncompressed == MAX_U32 || e.offset == MAX_U32 {
      return Rejected;
    }
    var ok := ValidateFlagsAndMethod(e.flags, e.compression);
    if !ok || e.versionNeeded != CanonicalVersion(e.flags, e.compression) {
      return Rejected;
    }
    if |e.rawName| == 0 || e.internal != 0 {
      return Rejected;
    }
    ok := ValidateExtraFields(e.extra);
    if !ok {
      return Rejected;
    }
    var name := DecodeName(e.rawName, e.flags);
    if name.None? {
      return Rejected;
    }
    ok := ValidateName(rules, name.value);
    if !ok {
      return Rejected;
    }
    ok := ValidateExternalAttributes(e.madeBy, e.external);
    if !ok {
      return Rejected;
    }
    return Ok(e.(name := name.value));
  }

  /** The bytes of a central record do not depend on the decoded name, and fix everything else. */
  lemma CentralFixes(file: seq<byte>, pos: nat, e: Entry, other: Entry)
    requires At(file, pos, CentralBytes(e)) && At(file, pos, CentralBytes(other))
    ensures e == other.(name := e.name)
  {
    CentralParts(file, pos, e);
    CentralParts(file, pos, other);
  }

  method ReadCentral(rules: Rules, file: seq<byte>, position: nat) returns (r: Result<Entry>)
    ensures r.Ok? ==> CentralAt(rules, file, position, r.value)
    ensures r.Rejected? ==> forall e :: !CentralAt(rules, file, position, e)
  {
    var fields := ReadCentralFields(file, position);
    if fields.Rejected? {
      return Rejected;
    }
    r := CheckEntry(rules, fields.value);
    if r.Ok? {
      assert CentralBytes(r.value) == CentralBytes(fields.value);
    } else {
      forall e | CentralAt(rules, file, position, e) ensures e == fields.value.(name := e.name) {
        CentralFixes(file, position, e, fields.value);
      }
    }
  }

  // ---------- One local record ----------

  function DataOffset(e: Entry): nat {
    e.offset + 30 + |e.rawName| + |e.extra|
  }

  function RecordEnd(e: Entry): nat {
    DataOffset(e) + e.compressed + |LocalTail(e)|
  }

  /** A record of the entry stands where the entry says and ends before the limit. */
  predicate LocalAt(file: seq<byte>, e: Entry, r: Record, limit: nat) {
    r.entry == e && RecordOk(r) && At(file, e.offset, LocalBytes(r)) && RecordEnd(e) <= limit
  }

  /** The local header repeats the entry's metadata, name and extra field. */
  predicate LocalFraming(file: seq<byte>, e: Entry) {
    var pos := e.offset;
    && pos + 30 <= |file| && U32(file, pos) == LOCAL_HEADER_SIGNATURE
    && U16(file, pos + 4) == e.versionNeeded && U16(file, pos + 6) == e.flags && U16(file, pos + 8) == e.compression
    && U16(file, pos + 10) == e.time && U16(file, pos + 12) == e.date
    && U16(file, pos + 26) == |e.rawName| && U16(file, pos + 28) == |e.extra|
    && At(file, pos + 30, e.rawName) && At(file, pos + 30 + |e.rawName|, e.extra)
  }

  predicate LocalSizes(file: seq<byte>, pos: nat, crc: u32, compressed: u32, uncompressed: u32)
    requires pos + 30 <= |file|
  {
    U32(file, pos + 14) == crc && U32(file, pos + 18) == compressed && U32(file, pos + 22) == uncompressed
  }

  /** The local header holds zero instead of CRC and sizes exactly when the record says so. */
  predicate SizesAgree(file: seq<byte>, e: Entry, zeroed: bool)
    requires e.offset + 30 <= |file|
  {
    if zeroed then LocalSizes(file, e.offset, 0, 0, 0)
    else LocalSizes(file, e.offset, e.crc, e.compressed, e.uncompressed)
  }

  lemma LocalStartAt(file: seq<byte>, r: Record)
    ensures var e := r.entry;
      At(file, e.offset, LocalStart(r)) && At(file, e.offset + 30, e.rawName) && At(file, e.offset + 30 + |e.rawName|, e.extra)
      <==> LocalFraming(file, e) && SizesAgree(file, e, r.zeroed)
  {
    var e := r.entry;
    if r.zeroed {
      LocalHeaderAt(file, e.offset, e, 0, 0, 0);
    } else {
      LocalHeaderAt(file, e.offset, e, e.crc, e.compressed, e.uncompressed);
    }
  }

  /** The five parts of a local record, one after the other. */
  lemma LocalParts(file: seq<byte>, r: Record)
    requires |r.data| == r.entry.compressed
    ensures var e := r.entry;
      At(file, e.offset, LocalBytes(r)) <==>
        && At(file, e.offset, LocalStart(r)) && At(file, e.offset + 30, e.rawName)
        && At(file, e.offset + 30 + |e.rawName|, e.extra)
        && At(file, DataOffset(e), r.data) && At(file, DataOffset(e) + |r.data|, LocalTail(e))
  {
    AtConcat5(file, r.entry.offset, LocalStart(r), r.entry.rawName, r.entry.extra, r.data, LocalTail(r.entry));
  }

  lemma TailAt(file: seq<byte>, pos: nat, e: Entry)
    ensures At(file, pos, LocalTail(e)) <==>
      if HasDescriptor(e.flags) then
        && pos + 16 <= |file| && U32(file, pos) == DATA_DESCRIPTOR_SIGNATURE
        && U32(file, pos + 4) == e.crc && U32(file, pos + 8) == e.compressed && U32(file, pos + 12) == e.uncompressed
      else pos <= |file|
  {
    DescriptorAt(file, pos, e);
  }

  /** At most one record of an entry stands at its place. */
  lemma LocalUnique(file: seq<byte>, e: Entry, limit: nat, r: Record, other: Record)
    requires LocalAt(file, e, r, limit) && LocalAt(file, e, other, limit)
    ensures r == other
  {
    LocalParts(file, r);
    LocalParts(file, other);
    LocalStartAt(file, r);
    LocalStartAt(file, other);
  }

  /** Sizes as they may stand in a local header: exact, or zero where a descriptor follows. */
  predicate SizesOk(file: seq<byte>, e: Entry, zeroed: bool)
    requires e.offset + 30 <= |file|
  {
    && SizesAgree(file, e, zeroed)
    && (zeroed ==> HasDescriptor(e.flags) && !(e.crc == 0 && e.compressed == 0 && e.uncompressed == 0))
  }

  /** What the reader must find if a record is there. */
  lemma LocalFramed(file: seq<byte>, e: Entry, limit: nat, r: Record)
    requires LocalAt(file, e, r, limit)
    ensures LocalFraming(file, e) && SizesOk(file, e, r.zeroed)
    ensures At(file, DataOffset(e) + e.compressed, LocalTail(e))
  {
    LocalParts(file, r);
    LocalStartAt(file, r);
  }

  /** Compares the fixed fields, the name and the extra field with the entry. */
  method ValidateLocalHeader(file: seq<byte>, e: Entry) returns (ok: bool)
    requires e.versionNeeded <= 20 && ExtraOk(e.extra)
    ensures ok <==> LocalFraming(file, e)
  {
    var pos := e.offset;
    if pos + 30 > |file| || U32(file, pos) != LOCAL_HEADER_SIGNATURE {
      return false;
    }
    var needed := U16(file, pos + 4);
    if needed > 20 || needed != e.versionNeeded || U16(file, pos + 6) != e.flags
       || U16(file, pos + 8) != e.compression || U16(file, pos + 10) != e.time || U16(file, pos + 12) != e.date {
      return false;
    }
    var nameLength, extraLength := U16(file, pos + 26), U16(file, pos + 28);
    if pos + 30 + nameLength > |file| || file[pos + 30..pos + 30 + nameLength] != e.rawName {
      return false;
    }
    if pos + 30 + nameLength + extraLength > |file| {
      return false;
    }
    var extra := file[pos + 30 + nameLength..pos + 30 + nameLength + extraLength];
    var valid := ValidateExtraFields(extra);
    if !valid || extra != e.extra {
      return false;
    }
    return true;
  }

  /** The descriptor must repeat the entry's CRC and sizes. */
  method ValidateDescriptor(file: seq<byte>, dataEnd: nat, e: Entry) returns (ok: bool)
    requires HasDescriptor(e.flags)
    ensures ok <==> At(file, dataEnd, LocalTail(e))
  {
    TailAt(file, dataEnd, e);
    if dataEnd + 16 > |file| || U32(file, dataEnd) != DATA_DESCRIPTOR_SIGNATURE {
      return false;
    }
    if U32(file, dataEnd + 4) != e.crc || U32(file, dataEnd + 8) != e.compressed
       || U32(file, dataEnd + 12) != e.uncompressed {
      return false;
    }
    return true;
  }

  /** Whether the sizes are zeroed, if they are acceptable at all. */
  method ValidateSizes(file: seq<byte>, e: Entry) returns (zeroed: Option<bool>)
    requires e.offset + 30 <= |file|
    ensures zeroed.Some? ==> SizesOk(file, e, zeroed.value)
    ensures zeroed.None? ==> !SizesOk(file, e, true) && !SizesOk(file, e, false)
  {
    var crc, compressed, uncompressed :=
      U32(file, e.offset + 14), U32(file, e.offset + 18), U32(file, e.offset + 22);
    var exactLocal := crc == e.crc && compressed == e.compressed && uncompressed == e.uncompressed;
    if HasDescriptor(e.flags) {
      var zeroLocal := crc == 0 && compressed == 0 && uncompressed == 0;
      if !zeroLocal && !exactLocal {
        return None;
      }
    } else if !exactLocal {
      return None;
    }
    return Some(!exactLocal);
  }

  /** A record is there exactly when framing, sizes, descriptor and bound agree. */
  predicate Acceptable(file: seq<byte>, e: Entry, limit: nat) {
    && LocalFraming(file, e) && (SizesOk(file, e, true) || SizesOk(file, e, false))
    && (HasDescriptor(e.flags) ==> At(file, DataOffset(e) + e.compressed, LocalTail(e)))
    && RecordEnd(e) <= limit
  }

  lemma NoRecord(file: seq<byte>, e: Entry, limit: nat)
    requires !Acceptable(file, e, limit)
    ensures forall r :: !LocalAt(file, e, r, limit)
  {
    forall r | LocalAt(file, e, r, limit) ensures Acceptable(file, e, limit) {
      LocalFramed(file, e, limit, r);
    }
  }

  lemma RecordStands(file: seq<byte>, e: Entry, zeroed: bool, limit: nat)
    requires Acceptable(file, e, limit) && SizesOk(file, e, zeroed) && limit <= |file|
    ensures DataOffset(e) + e.compressed <= |file|
    ensures LocalAt(file, e, Record(e, zeroed, file[DataOffset(e)..DataOffset(e) + e.compressed]), limit)
  {
    hide LocalStart, LocalTail;
    var r := Record(e, zeroed, file[DataOffset(e)..DataOffset(e) + e.compressed]);
    LocalStartAt(file, r);
    LocalParts(file, r);
  }

  /** Where the entry's local record ends, if it is there; the flag names the sizes found. */
  method ValidateLocalRecord(file: seq<byte>, e: Entry, centralOffset: nat)
    returns (end: Result<nat>, ghost zeroed: bool)
    requires e.versionNeeded <= 20 && ExtraOk(e.extra)
    ensures end.Ok? <==> Acceptable(file, e, centralOffset)
    ensures end.Ok? ==> SizesOk(file, e, zeroed) && end.value == RecordEnd(e)
  {
    end, zeroed := Rejected, false;
    var ok := ValidateLocalHeader(file, e);
    if !ok {
      return;
    }
    var sizes := ValidateSizes(file, e);
    if sizes.None? {
      return;
    }
    zeroed := sizes.value;
    var dataEnd := DataOffset(e) + e.compressed;
    var recordEnd := dataEnd;
    if HasDescriptor(e.flags) {
      ok := ValidateDescriptor(file, dataEnd, e);
      if !ok {
        return;
      }
      recordEnd := dataEnd + 16;
    }
    if recordEnd > centralOffset {
      return;
    }
    end := Ok(recordEnd);
  }
}
