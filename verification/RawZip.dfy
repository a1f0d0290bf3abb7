/**
 * The acceptor: the end record, a loop over the central directory, a sort by offset, and a loop over the
 * local records. It accepts exactly the files that some well-formed archive partitions.
 */
module RawZip {
  import opened Prelude
  import opened Bytes
  import opened ZipFormat
  import opened ZipRecords
  import opened ZipPartition
  import Sorting

  datatype RawZip = RawZip(entries: seq<Entry>, byName: map<string, Entry>)

  /** The folded names of some entries. */
  function FoldedNames(rules: Rules, es: seq<Entry>): set<string> {
    if es == [] then {} else FoldedNames(rules, es[..|es| - 1]) + {Fold(rules, es[|es| - 1])}
  }

  /** The entries under their names, later ones first. */
  function Index(es: seq<Entry>): map<string, Entry> {
    if es == [] then map[] else Index(es[..|es| - 1])[es[|es| - 1].name := es[|es| - 1]]
  }

  lemma {:induction false} FoldedNamesMeans(rules: Rules, es: seq<Entry>, n: string)
    ensures n in FoldedNames(rules, es) <==> exists i :: 0 <= i < |es| && Fold(rules, es[i]) == n
  {
    if es != [] {
      var front, last := es[..|es| - 1], |es| - 1;
      FoldedNamesMeans(rules, front, n);
      if n in FoldedNames(rules, front) {
        var i :| 0 <= i < |front| && Fold(rules, front[i]) == n;
        assert Fold(rules, es[i]) == n;
      }
      if i :| 0 <= i < |es| && Fold(rules, es[i]) == n {
        assert i < last ==> Fold(rules, front[i]) == n;
      }
    }
  }

  /** The names in the index are the names of the entries. */
  lemma {:induction false} IndexNames(es: seq<Entry>, n: string)
    ensures n in Index(es) ==> Index(es)[n] in es && Index(es)[n].name == n
    ensures (exists i :: 0 <= i < |es| && es[i].name == n) ==> n in Index(es)
  {
    if es != [] {
      var front := es[..|es| - 1];
      IndexNames(front, n);
      if i :| 0 <= i < |es| && es[i].name == n {
        assert i < |front| ==> front[i].name == n;
      }
    }
  }

  /** Where no two names agree, the index finds every entry. */
  lemma {:induction false} IndexFinds(rules: Rules, es: seq<Entry>, i: nat)
    requires NamesDistinct(rules, es) && i < |es|
    ensures es[i].name in Index(es) && Index(es)[es[i].name] == es[i]
  {
    var last := |es| - 1;
    if i < last {
      assert es[..last][i] == es[i];
      IndexFinds(rules, es[..last], i);
      assert Fold(rules, es[i]) != Fold(rules, es[last]);
    }
  }

  lemma {:induction false} ExpandedPrefix(es: seq<Entry>, k: nat)
    requires k <= |es|
    ensures ExpandedSize(es[..k]) <= ExpandedSize(es)
  {
    if k == |es| {
      assert es[..k] == es;
    } else {
      ExpandedPrefix(es[..|es| - 1], k);
      assert es[..|es| - 1][..k] == es[..k];
    }
  }

  /** The next entry of a directory that is there is the one the reader meets. */
  lemma HintStep(rules: Rules, file: seq<byte>, offset: nat, es: seq<Entry>, k: nat)
    requires DirectoryAt(rules, file, offset, es) && k < |es|
    ensures CentralAt(rules, file, offset + |Centrals(es[..k])|, es[k])
    ensures es[..k + 1] == es[..k] + [es[k]]
    ensures ExpandedSize(es[..k]) + es[k].uncompressed <= MAX_ARCHIVE_BYTES
  {
    hide CentralBytes, EntryOk;
    CentralStandsAt(file, offset, es, k);
    ExpandedPrefix(es, k + 1);
    assert es[..k + 1][..k] == es[..k];
  }

  /** One more entry keeps the names distinct exactly when its folded name is new. */
  lemma ExtendNames(rules: Rules, es: seq<Entry>, e: Entry)
    requires NamesDistinct(rules, es)
    ensures Fold(rules, e) !in FoldedNames(rules, es) <==> NamesDistinct(rules, es + [e])
  {
    var fs := es + [e];
    FoldedNamesMeans(rules, es, Fold(rules, e));
    if Fold(rules, e) in FoldedNames(rules, es) {
      var i :| 0 <= i < |es| && Fold(rules, es[i]) == Fold(rules, e);
      assert Fold(rules, fs[i]) == Fold(rules, fs[|es|]);
    } else {
      forall i, j | 0 <= i < j < |fs| ensures Fold(rules, fs[i]) != Fold(rules, fs[j]) {
        assert fs[i] == es[i] && (j < |es| ==> fs[j] == es[j]);
      }
    }
  }

  lemma PrefixDistinct(rules: Rules, es: seq<Entry>, k: nat)
    requires NamesDistinct(rules, es) && k <= |es|
    ensures NamesDistinct(rules, es[..k])
  {
  }

  lemma ExtendDirectory(rules: Rules, file: seq<byte>, offset: nat, es: seq<Entry>, e: Entry)
    requires DirectoryAt(rules, file, offset, es) && CentralAt(rules, file, offset + |Centrals(es)|, e)
    requires NamesDistinct(rules, es + [e]) && ExpandedSize(es) + e.uncompressed <= MAX_ARCHIVE_BYTES
    ensures DirectoryAt(rules, file, offset, es + [e])
    ensures |Centrals(es + [e])| == |Centrals(es)| + 46 + |e.rawName| + |e.extra|
    ensures ExpandedSize(es + [e]) == ExpandedSize(es) + e.uncompressed
  {
    assert (es + [e])[..|es|] == es;
    AtConcat(file, offset, Centrals(es), CentralBytes(e));
  }

  lemma ExtendTables(rules: Rules, es: seq<Entry>, e: Entry)
    ensures FoldedNames(rules, es + [e]) == FoldedNames(rules, es) + {Fold(rules, e)}
    ensures Index(es + [e]) == Index(es)[e.name := e]
  {
    assert (es + [e])[..|es|] == es;
  }

  /** A name already in the index is a folded name already taken. */
  lemma DuplicateFolds(rules: Rules, es: seq<Entry>, e: Entry)
    requires e.name in Index(es)
    ensures Fold(rules, e) in FoldedNames(rules, es)
  {
    IndexNames(es, e.name);
    var i :| 0 <= i < |es| && es[i] == Index(es)[e.name];
    assert Fold(rules, es[i]) == Fold(rules, e);
    FoldedNamesMeans(rules, es, Fold(rules, e));
  }

  /** The loop's variables after it has read some entries. */
  datatype Scan = Scan(
    entries: seq<Entry>,
    byName: map<string, Entry>,
    foldedNames: set<string>,
    expandedBytes: nat,
    position: nat
  )

  predicate Scanned(rules: Rules, file: seq<byte>, offset: nat, s: Scan) {
    && DirectoryAt(rules, file, offset, s.entries)
    && s.byName == Index(s.entries) && s.foldedNames == FoldedNames(rules, s.entries)
    && s.expandedBytes == ExpandedSize(s.entries)
    && s.position == offset + |Centrals(s.entries)|
  }

  /** The entry passes the checks that compare it with the entries before it. */
  predicate Fresh(rules: Rules, s: Scan, e: Entry) {
    && e.name !in s.byName && Fold(rules, e) !in s.foldedNames
    && s.expandedBytes + e.uncompressed <= MAX_ARCHIVE_BYTES
  }

  function Advance(rules: Rules, s: Scan, e: Entry): Scan {
    Scan(s.entries + [e], s.byName[e.name := e], s.foldedNames + {Fold(rules, e)},
         s.expandedBytes + e.uncompressed, s.position + 46 + |e.rawName| + |e.extra|)
  }

  lemma ScanStep(rules: Rules, file: seq<byte>, offset: nat, s: Scan, e: Entry)
    requires Scanned(rules, file, offset, s) && CentralAt(rules, file, s.position, e) && Fresh(rules, s, e)
    ensures Scanned(rules, file, offset, Advance(rules, s, e))
  {
    hide CentralBytes, EntryOk;
    assert NamesDistinct(rules, s.entries + [e]) by {
      ExtendNames(rules, s.entries, e);
    }
    ExtendDirectory(rules, file, offset, s.entries, e);
    ExtendTables(rules, s.entries, e);
  }

  /** A directory that is there passes every check of the loop. */
  lemma HintPasses(rules: Rules, file: seq<byte>, offset: nat, hint: seq<Entry>, s: Scan)
    requires DirectoryAt(rules, file, offset, hint) && |s.entries| < |hint| && s.entries == hint[..|s.entries|]
    requires Scanned(rules, file, offset, s)
    ensures var e := hint[|s.entries|];
      CentralAt(rules, file, s.position, e) && Fresh(rules, s, e) && s.entries + [e] == hint[..|s.entries| + 1]
  {
    hide CentralBytes, EntryOk, NamesDistinct;
    var k, e := |s.entries|, hint[|s.entries|];
    HintStep(rules, file, offset, hint, k);
    assert Fold(rules, e) !in s.foldedNames by {
      PrefixDistinct(rules, hint, k + 1);
      ExtendNames(rules, s.entries, e);
    }
    if e.name in s.byName {
      DuplicateFolds(rules, s.entries, e);
    }
  }

  /**
   * One turn of the loop over the central directory. `hint` is any directory that may be there; if it
   * agrees with what has been read, its next entry is accepted.
   */
  method ReadNext(rules: Rules, file: seq<byte>, ghost offset: nat, s: Scan, normalizedNames: set<string>,
                  ghost hint: Option<seq<Entry>>)
    returns (r: Result<Scan>, newNormalized: set<string>)
    requires Scanned(rules, file, offset, s) && normalizedNames == s.foldedNames
    requires hint.Some? ==>
      && DirectoryAt(rules, file, offset, hint.value)
      && |s.entries| < |hint.value| && s.entries == hint.value[..|s.entries|]
    ensures r.Ok? ==>
      && Scanned(rules, file, offset, r.value) && newNormalized == r.value.foldedNames
      && |r.value.entries| == |s.entries| + 1
    ensures hint.Some? ==> r.Ok? && r.value.entries == hint.value[..|s.entries| + 1]
  {
    newNormalized := normalizedNames;
    if hint.Some? {
      HintPasses(rules, file, offset, hint.value, s);
    }
    var central := ReadCentral(rules, file, s.position);
    if central.Rejected? {
      return Rejected, newNormalized;
    }
    var entry := central.value;
    if hint.Some? {
      CentralUnique(rules, file, s.position, entry, hint.value[|s.entries|]);
    }
    var folded, normalized := rules.lower(entry.name), rules.lower(rules.nfc(entry.name));
    if entry.name in s.byName || folded in s.foldedNames || normalized in normalizedNames {
      return Rejected, newNormalized;
    }
    newNormalized := normalizedNames + {normalized};
    if s.expandedBytes + entry.uncompressed > MAX_ARCHIVE_BYTES {
      return Rejected, newNormalized;
    }
    ScanStep(rules, file, offset, s, entry);
    r := Ok(Advance(rules, s, entry));
  }

  /** The whole loop: the entries that stand there, unless no acceptable directory of that count does. */
  method ReadDirectory(rules: Rules, file: seq<byte>, centralOffset: nat, entryCount: nat, ghost hint: Option<seq<Entry>>)
    returns (r: Result<Scan>)
    requires centralOffset <= |file|
    requires hint.Some? ==> DirectoryAt(rules, file, centralOffset, hint.value) && |hint.value| == entryCount
    ensures r.Ok? ==> Scanned(rules, file, centralOffset, r.value) && |r.value.entries| == entryCount
    ensures hint.Some? ==> r.Ok? && r.value.entries == hint.value
  {
    var scan := Scan([], map[], {}, 0, centralOffset);
    var normalizedNames: set<string> := {};
    for index := 0 to entryCount
      invariant |scan.entries| == index && normalizedNames == scan.foldedNames
      invariant Scanned(rules, file, centralOffset, scan)
      invariant hint.Some? ==> scan.entries == hint.value[..index]
    {
      var next;
      next, normalizedNames := ReadNext(rules, file, centralOffset, scan, normalizedNames, hint);
      if next.Rejected? {
        return Rejected;
      }
      scan := next.value;
    }
    r := Ok(scan);
  }

  // ---------- The local records ----------

  /** Records read so far: in place, and the beginning of the file. */
  predicate Tiled(file: seq<byte>, order: seq<Entry>, rs: seq<Record>) {
    EntriesOf(rs) == order && InPlace(rs) && At(file, 0, Locals(rs))
  }

  lemma AppendTile(file: seq<byte>, order: seq<Entry>, rs: seq<Record>, r: Record)
    requires Tiled(file, order, rs) && r.entry.offset == |Locals(rs)|
    requires RecordOk(r) && At(file, r.entry.offset, LocalBytes(r))
    ensures Tiled(file, order + [r.entry], rs + [r])
    ensures |Locals(rs + [r])| == |Locals(rs)| + |LocalBytes(r)|
  {
    assert (rs + [r])[..|rs|] == rs;
    AtConcat(file, 0, Locals(rs), LocalBytes(r));
  }

  lemma TileStep(file: seq<byte>, order: seq<Entry>, rs: seq<Record>, e: Entry, zeroed: bool, limit: nat)
    returns (next: seq<Record>)
    requires Tiled(file, order, rs) && e.offset == |Locals(rs)|
    requires Acceptable(file, e, limit) && SizesOk(file, e, zeroed) && limit <= |file|
    ensures Tiled(file, order + [e], next) && |Locals(next)| == RecordEnd(e)
    ensures |next| == |rs| + 1 && next[..|rs|] == rs && LocalAt(file, e, next[|rs|], limit)
  {
    RecordStands(file, e, zeroed, limit);
    var r := Record(e, zeroed, file[DataOffset(e)..DataOffset(e) + e.compressed]);
    next := rs + [r];
    AppendTile(file, order, rs, r);
  }

  /** The record the loop adds is the one any full tiling has there. */
  lemma TilesAgree(file: seq<byte>, e: Entry, limit: nat, hint: seq<Record>, rs: seq<Record>)
    requires 0 < |rs| <= |hint| && rs[..|rs| - 1] == hint[..|rs| - 1]
    requires LocalAt(file, e, hint[|rs| - 1], limit) && LocalAt(file, e, rs[|rs| - 1], limit)
    ensures rs == hint[..|rs|]
  {
    var k := |rs| - 1;
    assert rs[k] == hint[k] by {
      LocalUnique(file, e, limit, rs[k], hint[k]);
    }
    assert rs == rs[..k] + [rs[k]];
  }

  /** What a full tiling tells about the entry at an index. */
  lemma HintRecord(file: seq<byte>, order: seq<Entry>, limit: nat, hint: seq<Record>, k: nat)
    requires RecordsAt(file, order, limit, hint) && k < |order|
    ensures |hint| == |order| && LocalAt(file, order[k], hint[k], limit)
    ensures order[k].offset == |Locals(hint[..k])| && Acceptable(file, order[k], limit)
  {
    RecordStandsAt(file, order, limit, hint, k);
    if !Acceptable(file, order[k], limit) {
      NoRecord(file, order[k], limit);
    }
  }

  /** The records read so far are the beginning of any full tiling. */
  predicate Agrees(file: seq<byte>, order: seq<Entry>, limit: nat, hint: Option<seq<Record>>, rs: seq<Record>) {
    hint.Some? ==> RecordsAt(file, order, limit, hint.value) && |rs| <= |hint.value| && rs == hint.value[..|rs|]
  }

  lemma HintNext(file: seq<byte>, order: seq<Entry>, limit: nat, hint: Option<seq<Record>>, rs: seq<Record>)
    requires Agrees(file, order, limit, hint, rs) && hint.Some? && |rs| < |order|
    ensures var e := order[|rs|]; e.offset == |Locals(rs)| && Acceptable(file, e, limit)
  {
    HintRecord(file, order, limit, hint.value, |rs|);
  }

  lemma HintKept(file: seq<byte>, order: seq<Entry>, limit: nat, hint: Option<seq<Record>>, rs: seq<Record>)
    requires 0 < |rs| <= |order| && Agrees(file, order, limit, hint, rs[..|rs| - 1])
    requires LocalAt(file, order[|rs| - 1], rs[|rs| - 1], limit)
    ensures Agrees(file, order, limit, hint, rs)
  {
    if hint.Some? {
      HintRecord(file, order, limit, hint.value, |rs| - 1);
      TilesAgree(file, order[|rs| - 1], limit, hint.value, rs);
    }
  }

  lemma TileNext(file: seq<byte>, order: seq<Entry>, rs: seq<Record>, zeroed: bool, limit: nat,
                 hint: Option<seq<Record>>)
    returns (next: seq<Record>)
    requires |rs| < |order| && Tiled(file, order[..|rs|], rs) && Agrees(file, order, limit, hint, rs)
    requires limit <= |file|
    requires var e := order[|rs|];
      e.offset == |Locals(rs)| && Acceptable(file, e, limit) && SizesOk(file, e, zeroed)
    ensures |next| == |rs| + 1 && Tiled(file, order[..|next|], next)
    ensures |Locals(next)| == RecordEnd(order[|rs|]) && Agrees(file, order, limit, hint, next)
  {
    hide Tiled, Agrees, Locals, LocalAt, Acceptable, SizesOk, RecordEnd;
    next := TileStep(file, order[..|rs|], rs, order[|rs|], zeroed, limit);
    assert order[..|next|] == order[..|rs|] + [order[|rs|]];
    HintKept(file, order, limit, hint, next);
  }

  /** One turn of the loop over the sorted entries, which have been read up to `expectedOffset`. */
  method NextLocal(file: seq<byte>, localOrder: seq<Entry>, i: nat, expectedOffset: nat, centralOffset: nat,
                   ghost hint: Option<seq<Record>>, ghost rs: seq<Record>)
    returns (end: Result<nat>, ghost next: seq<Record>)
    requires i < |localOrder| && centralOffset <= |file|
    requires localOrder[i].versionNeeded <= 20 && ExtraOk(localOrder[i].extra)
    requires |rs| == i && Tiled(file, localOrder[..i], rs) && |Locals(rs)| == expectedOffset
    requires Agrees(file, localOrder, centralOffset, hint, rs)
    ensures end.Ok? ==>
      && |next| == i + 1 && Tiled(file, localOrder[..i + 1], next) && |Locals(next)| == end.value
      && Agrees(file, localOrder, centralOffset, hint, next)
      && end.value == RecordEnd(localOrder[i])
    ensures end.Ok? <==> localOrder[i].offset == expectedOffset && Acceptable(file, localOrder[i], centralOffset)
  {
    var e := localOrder[i];
    next := rs;
    if e.offset != expectedOffset {
      return Rejected, next;
    }
    ghost var zeroed;
    end, zeroed := ValidateLocalRecord(file, e, centralOffset);
    if end.Ok? {
      next := TileNext(file, localOrder, rs, zeroed, centralOffset, hint);
    }
  }

  lemma TiledAll(file: seq<byte>, order: seq<Entry>, limit: nat, hint: Option<seq<Record>>, rs: seq<Record>)
    requires |rs| == |order| && Tiled(file, order[..|order|], rs) && Agrees(file, order, limit, hint, rs)
    ensures |Locals(rs)| == limit ==> RecordsAt(file, order, limit, rs)
    ensures hint.Some? ==> |Locals(rs)| == limit
  {
    assert order[..|order|] == order;
  }

  /**
   * The loop over the sorted entries. It succeeds exactly when records of these entries, in this order,
   * tile the file up to the central directory; `hint` is any such tiling.
   */
  method ReadLocals(file: seq<byte>, localOrder: seq<Entry>, centralOffset: nat, ghost hint: Option<seq<Record>>)
    returns (ok: bool, ghost records: seq<Record>)
    requires centralOffset <= |file|
    requires Checked(localOrder)
    requires hint.Some? ==> RecordsAt(file, localOrder, centralOffset, hint.value)
    ensures ok ==> RecordsAt(file, localOrder, centralOffset, records) && |Locals(records)| == centralOffset
    ensures hint.Some? ==> ok
  {
    hide Acceptable, RecordsAt;
    var expectedOffset := 0;
    var localOffsets: set<int> := {};
    records := [];
    ok := false;
    for i := 0 to |localOrder|
      invariant |records| == i && Tiled(file, localOrder[..i], records) && |Locals(records)| == expectedOffset
      invariant forall n :: n in localOffsets ==> n < expectedOffset
      invariant Agrees(file, localOrder, centralOffset, hint, records)
    {
      if hint.Some? {
        HintNext(file, localOrder, centralOffset, hint, records);
      }
      if localOrder[i].offset in localOffsets {
        return;
      }
      localOffsets := localOffsets + {localOrder[i].offset};
      var end;
      end, records := NextLocal(file, localOrder, i, expectedOffset, centralOffset, hint, records);
      if end.Rejected? {
        return;
      }
      expectedOffset := end.value;
    }
    TiledAll(file, localOrder, centralOffset, hint, records);
    ok := expectedOffset == centralOffset;
  }

  // ---------- The whole file ----------

  /** What the directory loop has already checked and the local loop relies on. */
  predicate Checked(es: seq<Entry>) {
    forall i :: 0 <= i < |es| ==> es[i].versionNeeded <= 20 && ExtraOk(es[i].extra)
  }

  lemma SortKeepsChecks(rules: Rules, es: seq<Entry>)
    requires forall i :: 0 <= i < |es| ==> EntryOk(rules, es[i])
    ensures Checked(Sorting.Sort(es, ByOffset()))
  {
    var order := Sorting.Sort(es, ByOffset());
    forall i | 0 <= i < |order| ensures order[i].versionNeeded <= 20 && ExtraOk(order[i].extra) {
      assert order[i] in multiset(order);
      assert order[i] in es;
    }
  }

  /** The end record: one disk, no comment, a plausible count, and a directory that reaches exactly up to it. */
  datatype End = End(count: nat, size: nat, offset: nat)

  predicate EndOk(file: seq<byte>, e: End) {
    && 22 <= |file| <= MAX_ARCHIVE_BYTES && 0 < e.count < 0xffff
    && EndFields(file, |file| - 22, e.count, e.size, e.offset) && e.offset + e.size == |file| - 22
  }

  method ReadEnd(file: seq<byte>) returns (r: Result<End>)
    ensures r.Ok? ==> EndOk(file, r.value)
    ensures r.Rejected? ==> forall e :: !EndOk(file, e)
  {
    if |file| < 22 || |file| > MAX_ARCHIVE_BYTES {
      return Rejected;
    }
    var end := |file| - 22;
    if U32(file, end) != END_OF_CENTRAL_DIRECTORY_SIGNATURE {
      return Rejected;
    }
    var entriesOnDisk, entryCount := U16(file, end + 8), U16(file, end + 10);
    var centralSize: int, centralOffset: int := U32(file, end + 12), U32(file, end + 16);
    if U16(file, end + 20) != 0 || U16(file, end + 4) != 0 || U16(file, end + 6) != 0 || entriesOnDisk != entryCount {
      return Rejected;
    }
    if entryCount == 0 || entryCount > MAX_ENTRIES || entryCount == 0xffff
       || centralSize == MAX_U32 || centralOffset == MAX_U32 {
      return Rejected;
    }
    if centralOffset + centralSize != end {
      return Rejected;
    }
    r := Ok(End(entryCount, centralSize, centralOffset));
  }

  lemma EndUnique(file: seq<byte>, e: End, other: End)
    requires EndOk(file, e) && EndOk(file, other)
    ensures e == other
  {
  }

  /** An archive whose parts stand where an end record says they do. */
  predicate Announced(rules: Rules, file: seq<byte>, end: End, a: Archive) {
    && |a.central| == end.count && |Centrals(a.central)| == end.size && |Locals(a.records)| == end.offset
    && DirectoryAt(rules, file, end.offset, a.central)
    && RecordsAt(file, Sorting.Sort(a.central, ByOffset()), end.offset, a.records)
  }

  function EndOf(a: Archive): End {
    End(|a.central|, |Centrals(a.central)|, |Locals(a.records)|)
  }

  lemma EndBounds(file: seq<byte>, end: End)
    requires EndOk(file, end)
    ensures end.offset + end.size + 22 == |file|
  {
  }

  /** What the two loops found, put together, partitions the file. */
  lemma Assembled(rules: Rules, file: seq<byte>, end: End, a: Archive)
    requires EndOk(file, end) && Announced(rules, file, end, a)
    ensures Partitions(rules, a, file)
  {
    hide EndFields, EntryOk, Render, ByOffset, Locals, Centrals, InPlace, EntriesOf, ExpandedSize, NamesDistinct, At;
    assert Fits(a);
    assert file == Render(a) by {
      RenderRegions(a, file);
    }
  }

  /** A partition is announced by the end record of its file. */
  lemma PartitionAnnounced(rules: Rules, a: Archive, file: seq<byte>)
    requires Partitions(rules, a, file)
    ensures EndOk(file, EndOf(a)) && Announced(rules, file, EndOf(a), a)
  {
    hide EndFields, EntryOk, Render, ByOffset;
    PartitionParts(rules, a, file);
  }

  /** The entries of any partition, and its records, as hints for the two loops. */
  ghost function SomePartition(rules: Rules, file: seq<byte>): (a: Option<Archive>)
    ensures a.Some? ==> Partitions(rules, a.value, file)
    ensures a.None? ==> forall b :: !Partitions(rules, b, file)
  {
    if b :| Partitions(rules, b, file) then Some(b) else None
  }

  /** The two loops and the sort between them, for a directory that the end record announces. */
  method ReadRecords(rules: Rules, file: seq<byte>, end: End, ghost hint: Option<Archive>)
    returns (r: Result<RawZip>, ghost found: Archive)
    requires EndOk(file, end)
    requires hint.Some? ==> Announced(rules, file, end, hint.value)
    ensures r.Ok? ==>
      && Announced(rules, file, end, found)
      && found.central == r.value.entries && r.value.byName == Index(r.value.entries)
    ensures hint.Some? ==> r.Ok?
  {
    hide EndOk, EntryOk, Checked, ByOffset;
    r, found := Rejected, Archive([], []);
    assert end.offset <= |file| by {
      EndBounds(file, end);
    }
    var scan := ReadDirectory(rules, file, end.offset, end.count,
                              if hint.Some? then Some(hint.value.central) else None);
    if scan.Rejected? {
      return;
    }
    var entries := scan.value.entries;
    if scan.value.position != end.offset + end.size {
      return;
    }
    var localOrder := Sorting.Sort(entries, ByOffset());
    SortKeepsChecks(rules, entries);
    var ok, records := ReadLocals(file, localOrder, end.offset,
                                  if hint.Some? then Some(hint.value.records) else None);
    if ok {
      r, found := Ok(RawZip(entries, scan.value.byName)), Archive(records, entries);
    }
  }

  /**
   * Accepts a file exactly when some well-formed archive partitions it, and then returns the directory
   * of that archive, in order, together with the index of its names.
   */
  method Read(rules: Rules, file: seq<byte>) returns (r: Result<RawZip>)
    ensures r.Ok? ==> exists a :: Partitions(rules, a, file) && a.central == r.value.entries
    ensures r.Ok? ==> r.value.byName == Index(r.value.entries)
    ensures r.Rejected? ==> forall a :: !Partitions(rules, a, file)
  {
    hide EndOk, Announced, Partitions;
    ghost var hint := SomePartition(rules, file);
    if hint.Some? {
      PartitionAnnounced(rules, hint.value, file);
    }
    var end := ReadEnd(file);
    if end.Rejected? {
      return Rejected;
    }
    if hint.Some? {
      EndUnique(file, end.value, EndOf(hint.value));
    }
    ghost var found;
    r, found := ReadRecords(rules, file, end.value, hint);
    if r.Ok? {
      Assembled(rules, file, end.value, found);
    }
  }
}
