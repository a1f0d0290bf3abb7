/**
 * Where the parts of a rendered archive lie, and why no file has two renderings: the partition into
 * local records, central headers and end record is unique.
 */
module ZipPartition {
  import opened Prelude
  import opened Bytes
  import opened ZipFormat
  import opened ZipRecords
  import Sorting

  // ---------- Positions ----------

  lemma {:induction false} CentralsPrefix(es: seq<Entry>, k: nat)
    requires k <= |es|
    ensures |Centrals(es[..k])| <= |Centrals(es)| && Centrals(es)[..|Centrals(es[..k])|] == Centrals(es[..k])
  {
    hide CentralBytes;
    if k == |es| {
      assert es[..k] == es;
    } else {
      var n := |es| - 1;
      CentralsPrefix(es[..n], k);
      assert es[..n][..k] == es[..k];
    }
  }

  lemma CentralsStep(es: seq<Entry>, k: nat)
    requires k < |es|
    ensures Centrals(es[..k + 1]) == Centrals(es[..k]) + CentralBytes(es[k])
  {
    assert es[..k + 1][..k] == es[..k];
  }

  lemma CentralStandsAt(file: seq<byte>, pos: nat, es: seq<Entry>, k: nat)
    requires k < |es| && At(file, pos, Centrals(es))
    ensures At(file, pos + |Centrals(es[..k])|, CentralBytes(es[k]))
  {
    hide CentralBytes;
    CentralsPrefix(es, k + 1);
    AtPrefix(file, pos, Centrals(es), Centrals(es[..k + 1]));
    CentralsStep(es, k);
    AtConcat(file, pos, Centrals(es[..k]), CentralBytes(es[k]));
  }

  lemma {:induction false} LocalsPrefix(rs: seq<Record>, k: nat)
    requires k <= |rs|
    ensures |Locals(rs[..k])| <= |Locals(rs)| && Locals(rs)[..|Locals(rs[..k])|] == Locals(rs[..k])
  {
    hide LocalBytes;
    if k == |rs| {
      assert rs[..k] == rs;
    } else {
      var n := |rs| - 1;
      LocalsPrefix(rs[..n], k);
      assert rs[..n][..k] == rs[..k];
    }
  }

  lemma LocalsStep(rs: seq<Record>, k: nat)
    requires k < |rs|
    ensures Locals(rs[..k + 1]) == Locals(rs[..k]) + LocalBytes(rs[k])
  {
    assert rs[..k + 1][..k] == rs[..k];
  }

  lemma LocalStandsAt(file: seq<byte>, rs: seq<Record>, k: nat)
    requires k < |rs| && At(file, 0, Locals(rs))
    ensures At(file, |Locals(rs[..k])|, LocalBytes(rs[k]))
    ensures |Locals(rs[..k + 1])| <= |Locals(rs)|
  {
    hide LocalBytes, RecordOk, Locals, At;
    LocalsPrefix(rs, k + 1);
    AtPrefix(file, 0, Locals(rs), Locals(rs[..k + 1]));
    LocalsStep(rs, k);
    AtConcat(file, 0, Locals(rs[..k]), LocalBytes(rs[k]));
  }

  lemma {:induction false} InPlaceAt(rs: seq<Record>, k: nat)
    requires InPlace(rs) && k < |rs|
    ensures RecordOk(rs[k]) && rs[k].entry.offset == |Locals(rs[..k])|
  {
    hide LocalBytes;
    var n := |rs| - 1;
    if k < n {
      InPlaceAt(rs[..n], k);
      assert rs[..n][..k] == rs[..k];
    }
  }

  // ---------- The directory and the records as wholes ----------

  /** The given entries, all acceptable together, fill the directory at an offset. */
  predicate DirectoryAt(rules: Rules, file: seq<byte>, offset: nat, es: seq<Entry>) {
    && (forall i :: 0 <= i < |es| ==> EntryOk(rules, es[i]))
    && NamesDistinct(rules, es) && ExpandedSize(es) <= MAX_ARCHIVE_BYTES
    && At(file, offset, Centrals(es))
  }

  lemma DirectoryStep(rules: Rules, file: seq<byte>, offset: nat, es: seq<Entry>, fs: seq<Entry>, k: nat)
    requires DirectoryAt(rules, file, offset, es) && DirectoryAt(rules, file, offset, fs)
    requires k < |es| == |fs| && es[..k] == fs[..k]
    ensures es[k] == fs[k]
  {
    hide CentralBytes, EntryOk;
    var pos := offset + |Centrals(es[..k])|;
    assert CentralAt(rules, file, pos, es[k]) by {
      CentralStandsAt(file, offset, es, k);
    }
    assert CentralAt(rules, file, pos, fs[k]) by {
      CentralStandsAt(file, offset, fs, k);
    }
    CentralUnique(rules, file, pos, es[k], fs[k]);
  }

  /** Entry by entry, a directory of a given count can be read in one way only. */
  lemma DirectoryUnique(rules: Rules, file: seq<byte>, offset: nat, es: seq<Entry>, fs: seq<Entry>)
    requires DirectoryAt(rules, file, offset, es) && DirectoryAt(rules, file, offset, fs) && |es| == |fs|
    ensures es == fs
  {
    for k := 0 to |es|
      invariant forall i :: 0 <= i < k ==> es[i] == fs[i]
    {
      assert es[..k] == fs[..k];
      DirectoryStep(rules, file, offset, es, fs, k);
    }
  }

  /** The given records, in place, are what the file starts with up to a limit. */
  predicate RecordsAt(file: seq<byte>, order: seq<Entry>, limit: nat, rs: seq<Record>) {
    EntriesOf(rs) == order && InPlace(rs) && At(file, 0, Locals(rs)) && |Locals(rs)| == limit
  }

  lemma RecordStandsAt(file: seq<byte>, order: seq<Entry>, limit: nat, rs: seq<Record>, k: nat)
    requires RecordsAt(file, order, limit, rs) && k < |rs|
    ensures order[k].offset == |Locals(rs[..k])| && LocalAt(file, order[k], rs[k], limit)
  {
    InPlaceAt(rs, k);
    LocalStandsAt(file, rs, k);
    LocalsStep(rs, k);
  }

  lemma {:induction false} RecordsUnique(file: seq<byte>, order: seq<Entry>, limit: nat, rs: seq<Record>, ss: seq<Record>)
    requires RecordsAt(file, order, limit, rs) && RecordsAt(file, order, limit, ss)
    ensures rs == ss
  {
    forall k | 0 <= k < |rs| ensures rs[k] == ss[k] {
      RecordStandsAt(file, order, limit, rs, k);
      RecordStandsAt(file, order, limit, ss, k);
      LocalUnique(file, order[k], limit, rs[k], ss[k]);
    }
  }

  // ---------- Physical order ----------

  function ByOffset(): (Entry, Entry) -> bool {
    (x: Entry, y: Entry) => x.offset <= y.offset
  }

  lemma LocalsGrow(rs: seq<Record>, i: nat, j: nat)
    requires i < j <= |rs|
    ensures |Locals(rs[..i])| < |Locals(rs[..j])|
  {
    LocalsStep(rs, i);
    LocalsPrefix(rs[..j], i + 1);
    assert rs[..j][..i + 1] == rs[..i + 1];
  }

  lemma OffsetsGrow(rs: seq<Record>, i: nat, j: nat)
    requires i < j < |rs| && InPlace(rs)
    ensures rs[i].entry.offset < rs[j].entry.offset
  {
    InPlaceAt(rs, i);
    InPlaceAt(rs, j);
    LocalsGrow(rs, i, j);
  }

  lemma PhysicalSorted(rs: seq<Record>)
    requires InPlace(rs)
    ensures Sorting.Sorted(EntriesOf(rs), ByOffset()) && Sorting.Untied(EntriesOf(rs), ByOffset())
  {
    var physical := EntriesOf(rs);
    forall i, j | 0 <= i < j < |physical| ensures physical[i].offset < physical[j].offset {
      OffsetsGrow(rs, i, j);
    }
  }

  /** Sorting the directory by offset yields the entries in physical order. */
  lemma SortIsPhysical(rs: seq<Record>, es: seq<Entry>)
    requires InPlace(rs) && multiset(EntriesOf(rs)) == multiset(es)
    ensures Sorting.Sort(es, ByOffset()) == EntriesOf(rs)
  {
    PhysicalSorted(rs);
    assert Sorting.IsOrder(ByOffset());
    Sorting.SortSorts(es, ByOffset());
    Sorting.SortedUnique(EntriesOf(rs), Sorting.Sort(es, ByOffset()), ByOffset());
  }

  // ---------- The whole file ----------

  lemma ThreeRegions(file: seq<byte>, a: seq<byte>, b: seq<byte>, c: seq<byte>)
    ensures file == a + b + c <==>
      |file| == |a| + |b| + |c| && At(file, 0, a) && At(file, |a|, b) && At(file, |a| + |b|, c)
  {
    AtConcat(file, 0, a + b, c);
    AtConcat(file, 0, a, b);
    assert file[0..|file|] == file;
  }

  /** The fields of the end record that a reader compares. */
  predicate EndFields(file: seq<byte>, end: nat, count: int, size: int, offset: int)
    requires end + 22 <= |file|
  {
    && U32(file, end) == END_OF_CENTRAL_DIRECTORY_SIGNATURE
    && U16(file, end + 4) == 0 && U16(file, end + 6) == 0 && U16(file, end + 20) == 0
    && U16(file, end + 8) == count && U16(file, end + 10) == count
    && U32(file, end + 12) == size && U32(file, end + 16) == offset
  }

  lemma EndRegion(file: seq<byte>, a: seq<byte>, b: seq<byte>, count: u16, size: u32, offset: u32)
    ensures file == a + b + EndBytes(count, size, offset) <==>
      && |file| == |a| + |b| + 22 && At(file, 0, a) && At(file, |a|, b)
      && EndFields(file, |a| + |b|, count, size, offset)
  {
    var end, tail := |a| + |b|, EndBytes(count, size, offset);
    ThreeRegions(file, a, b, tail);
    assert At(file, end, tail) <==> end + 22 <= |file| && EndFields(file, end, count, size, offset) by {
      EndAt(file, end, count, size, offset);
    }
  }

  /** The three regions of a rendering, and nothing else. */
  lemma RenderRegions(a: Archive, file: seq<byte>)
    requires Fits(a)
    ensures file == Render(a) <==>
      && |file| == |Locals(a.records)| + |Centrals(a.central)| + 22
      && At(file, 0, Locals(a.records)) && At(file, |Locals(a.records)|, Centrals(a.central))
      && EndFields(file, |Locals(a.records)| + |Centrals(a.central)|, |a.central|, |Centrals(a.central)|, |Locals(a.records)|)
  {
    hide EndBytes, EndFields;
    var l, c := Locals(a.records), Centrals(a.central);
    EndRegion(file, l, c, |a.central|, |c|, |l|);
  }

  /** What a reader finds in a file that an archive partitions. */
  lemma PartitionParts(rules: Rules, a: Archive, file: seq<byte>)
    requires Partitions(rules, a, file)
    ensures 22 <= |file| <= MAX_ARCHIVE_BYTES && |Locals(a.records)| + |Centrals(a.central)| == |file| - 22
    ensures EndFields(file, |file| - 22, |a.central|, |Centrals(a.central)|, |Locals(a.records)|)
    ensures DirectoryAt(rules, file, |Locals(a.records)|, a.central)
    ensures RecordsAt(file, Sorting.Sort(a.central, ByOffset()), |Locals(a.records)|, a.records)
  {
    RenderRegions(a, file);
    SortIsPhysical(a.records, a.central);
  }

  /** A file is partitioned in at most one way. */
  lemma PartitionUnique(rules: Rules, a: Archive, b: Archive, file: seq<byte>)
    requires Partitions(rules, a, file) && Partitions(rules, b, file)
    ensures a == b
  {
    PartitionParts(rules, a, file);
    PartitionParts(rules, b, file);
    DirectoryUnique(rules, file, |Locals(a.records)|, a.central, b.central);
    RecordsUnique(file, Sorting.Sort(a.central, ByOffset()), |Locals(a.records)|, a.records, b.records);
  }
}
