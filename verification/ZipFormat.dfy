/**
 * The archives the acceptor is meant to admit, stated without reference to how it reads them: which
 * entries are allowed, and the bytes an archive consists of (PKWARE APPNOTE, sections 4.3.7, 4.3.9,
 * 4.3.12 and 4.3.16).
 */
module ZipFormat {
  import opened Prelude
  import opened Bytes
  import Text
  import Utf8

  const MAX_ARCHIVE_BYTES := 0x8000_0000
  const MAX_ENTRIES := 100_000
  const MAX_U32 := 0xffff_ffff
  const LOCAL_HEADER_SIGNATURE := 0x0403_4b50
  const CENTRAL_HEADER_SIGNATURE := 0x0201_4b50
  const DATA_DESCRIPTOR_SIGNATURE := 0x0807_4b50
  const END_OF_CENTRAL_DIRECTORY_SIGNATURE := 0x0605_4b50
  const STORED := 0
  const DEFLATED := 8

  /** A variable-length field whose length is stored in one word. */
  type field = s: seq<byte> | |s| < 0x1_0000

  datatype Entry = Entry(
    rawName: field,
    name: string,
    versionNeeded: u16,
    flags: u16,
    compression: u16,
    time: u16,
    date: u16,
    crc: u32,
    compressed: u32,
    uncompressed: u32,
    madeBy: u16,
    internal: u16,
    external: u32,
    extra: field,
    offset: u32
  )

  /** Case folding and Unicode normalisation, which the Java library supplies. */
  datatype Rules = Rules(lower: string -> string, nfc: string -> string)

  // ---------- What an entry may say ----------

  predicate HasDescriptor(flags: u16) {
    flags / 8 % 2 == 1
  }

  predicate IsUtf8(flags: u16) {
    flags / 0x800 % 2 == 1
  }

  /** Only the UTF-8, data descriptor and deflate option bits, the last only for deflated entries. */
  predicate FlagsOk(flags: u16, compression: u16) {
    if compression == DEFLATED then
      flags in {0, 2, 4, 6, 8, 10, 12, 14} || flags - 0x800 in {0, 2, 4, 6, 8, 10, 12, 14}
    else
      compression == STORED && flags in {0, 8, 0x800, 0x808}
  }

  function CanonicalVersion(flags: u16, compression: u16): u16 {
    if compression == DEFLATED || HasDescriptor(flags) then 20 else 10
  }

  /** No extra field, or one extended timestamp holding the modification time only. */
  predicate ExtraOk(extra: seq<byte>) {
    extra == [] || (|extra| == 9 && extra[..5] == [0x55, 0x54, 5, 0, 1])
  }

  /** DOS attributes name no directory or volume; a UNIX host says regular file without special bits. */
  predicate AttributesOk(madeBy: u16, external: u32) {
    && external % 256 / 8 % 4 == 0
    && (|| (madeBy / 256 == 0 && High(external) == 0)
        || (madeBy / 256 == 3 && 0x8000 <= High(external) < 0x8200))
  }

  predicate IsPrintableAscii(b: seq<byte>) {
    forall i :: 0 <= i < |b| ==> 0x20 <= b[i] <= 0x7e
  }

  function DecodedName(rawName: seq<byte>, flags: u16): Option<string> {
    if IsUtf8(flags) then Utf8.Decode(rawName)
    else if IsPrintableAscii(rawName) then Some(Utf8.Ascii(rawName))
    else None
  }

  /** A relative path of ordinary components, free of control characters and back slashes, in NFC. */
  predicate SafeName(rules: Rules, name: string) {
    && (forall k :: 0 <= k < |Text.Split(name, '/')| ==> Text.Split(name, '/')[k] !in {"", ".", ".."})
    && (forall i :: 0 <= i < |name| ==> name[i] != '\\' && !Text.IsControl(name[i]))
    && rules.nfc(name) == name
  }

  predicate EntryOk(rules: Rules, e: Entry) {
    && e.compressed != MAX_U32 && e.uncompressed != MAX_U32 && e.offset != MAX_U32
    && FlagsOk(e.flags, e.compression)
    && e.versionNeeded == CanonicalVersion(e.flags, e.compression)
    && e.rawName != [] && e.internal == 0
    && ExtraOk(e.extra)
    && DecodedName(e.rawName, e.flags) == Some(e.name)
    && SafeName(rules, e.name)
    && AttributesOk(e.madeBy, e.external)
  }

  // ---------- The bytes ----------

  /** A stored file: its entry, whether its local header leaves CRC and sizes zero, and its data. */
  datatype Record = Record(entry: Entry, zeroed: bool, data: seq<byte>)

  /** Zero local sizes need a data descriptor; the flag is only set where it makes a difference. */
  predicate RecordOk(r: Record) {
    && |r.data| == r.entry.compressed
    && (r.zeroed ==> HasDescriptor(r.entry.flags))
    && (r.zeroed ==> !(r.entry.crc == 0 && r.entry.compressed == 0 && r.entry.uncompressed == 0))
  }

  function CentralHeader(e: Entry): (b: seq<byte>)
    ensures |b| == 46
  {
    Words12(0x4b50, 0x0201, e.madeBy, e.versionNeeded, e.flags, e.compression, e.time, e.date,
            Low(e.crc), High(e.crc), Low(e.compressed), High(e.compressed)) +
    Words11(Low(e.uncompressed), High(e.uncompressed), |e.rawName|, |e.extra|, 0, 0, e.internal,
            Low(e.external), High(e.external), Low(e.offset), High(e.offset))
  }

  function CentralBytes(e: Entry): (b: seq<byte>)
    ensures |b| == 46 + |e.rawName| + |e.extra|
  {
    CentralHeader(e) + e.rawName + e.extra
  }

  function LocalHeader(e: Entry, crc: u32, compressed: u32, uncompressed: u32): (b: seq<byte>)
    ensures |b| == 30
  {
    Words12(0x4b50, 0x0403, e.versionNeeded, e.flags, e.compression, e.time, e.date,
            Low(crc), High(crc), Low(compressed), High(compressed), Low(uncompressed)) +
    Words3(High(uncompressed), |e.rawName|, |e.extra|)
  }

  function Descriptor(e: Entry): (b: seq<byte>)
    ensures |b| == 16
  {
    Words4(0x4b50, 0x0807, Low(e.crc), High(e.crc)) +
    Words4(Low(e.compressed), High(e.compressed), Low(e.uncompressed), High(e.uncompressed))
  }

  function LocalStart(r: Record): (b: seq<byte>)
    ensures |b| == 30
  {
    if r.zeroed then LocalHeader(r.entry, 0, 0, 0)
    else LocalHeader(r.entry, r.entry.crc, r.entry.compressed, r.entry.uncompressed)
  }

  function LocalTail(e: Entry): (b: seq<byte>)
    ensures |b| == if HasDescriptor(e.flags) then 16 else 0
  {
    if HasDescriptor(e.flags) then Descriptor(e) else []
  }

  function LocalBytes(r: Record): (b: seq<byte>)
    ensures |b| == 30 + |r.entry.rawName| + |r.entry.extra| + |r.data| + |LocalTail(r.entry)|
  {
    LocalStart(r) + r.entry.rawName + r.entry.extra + r.data + LocalTail(r.entry)
  }

  function Centrals(es: seq<Entry>): seq<byte> {
    if es == [] then [] else Centrals(es[..|es| - 1]) + CentralBytes(es[|es| - 1])
  }

  function Locals(rs: seq<Record>): seq<byte> {
    if rs == [] then [] else Locals(rs[..|rs| - 1]) + LocalBytes(rs[|rs| - 1])
  }

  function EndBytes(count: u16, size: u32, offset: u32): (b: seq<byte>)
    ensures |b| == 22
  {
    Words11(0x4b50, 0x0605, 0, 0, count, count, Low(size), High(size), Low(offset), High(offset), 0)
  }

  /** The files in their physical order, and the entries in directory order. */
  datatype Archive = Archive(records: seq<Record>, central: seq<Entry>)

  predicate Fits(a: Archive) {
    |a.central| < 0xffff && |Locals(a.records)| + |Centrals(a.central)| + 22 <= MAX_ARCHIVE_BYTES
  }

  /** An archive is its local records, its central directory and its end record, and nothing else. */
  function Render(a: Archive): seq<byte>
    requires Fits(a)
  {
    Locals(a.records) + Centrals(a.central) +
    EndBytes(|a.central|, |Centrals(a.central)|, |Locals(a.records)|)
  }

  // ---------- Well-formed archives ----------

  function EntriesOf(rs: seq<Record>): (es: seq<Entry>)
    ensures |es| == |rs| && forall k :: 0 <= k < |rs| ==> es[k] == rs[k].entry
  {
    if rs == [] then [] else EntriesOf(rs[..|rs| - 1]) + [rs[|rs| - 1].entry]
  }

  function ExpandedSize(es: seq<Entry>): nat {
    if es == [] then 0 else ExpandedSize(es[..|es| - 1]) + es[|es| - 1].uncompressed
  }

  /** Each record stands where its entry says: right behind the records before it. */
  predicate InPlace(rs: seq<Record>) {
    if rs == [] then true
    else
      var front, last := rs[..|rs| - 1], rs[|rs| - 1];
      InPlace(front) && RecordOk(last) && last.entry.offset == |Locals(front)|
  }

  function Fold(rules: Rules, e: Entry): string {
    rules.lower(e.name)
  }

  /** No two names agree up to case. */
  predicate NamesDistinct(rules: Rules, es: seq<Entry>) {
    forall i, j :: 0 <= i < j < |es| ==> Fold(rules, es[i]) != Fold(rules, es[j])
  }

  predicate WellFormed(rules: Rules, a: Archive) {
    && 0 < |a.central| <= MAX_ENTRIES && Fits(a)
    && (forall i :: 0 <= i < |a.central| ==> EntryOk(rules, a.central[i]))
    && NamesDistinct(rules, a.central)
    && ExpandedSize(a.central) <= MAX_ARCHIVE_BYTES
    && multiset(EntriesOf(a.records)) == multiset(a.central)
    && InPlace(a.records)
  }

  /** The file is exactly the rendering of the archive. */
  predicate Partitions(rules: Rules, a: Archive, file: seq<byte>) {
    WellFormed(rules, a) && file == Render(a)
  }
}
