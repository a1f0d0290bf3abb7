/**
 * Creating or resuming an immutable release. One attempt may be cut short at any call to the service;
 * every attempt keeps what is there, and only a complete, byte-identical draft is ever published.
 */
module ReleaseReconciliation {
  import opened Prelude
  import opened ReleaseModel
  import Sorting
  import Text

  // ---------- The local assets ----------

  datatype FileInfo = FileInfo(name: string, regular: bool, symlink: bool, bytes: seq<byte>)

  predicate SafeFileName(name: string) {
    name !in {"", ".", ".."} && Text.Lacks(name, '/') && Text.Lacks(name, '\\')
  }

  predicate FileOk(f: FileInfo) {
    f.regular && !f.symlink && 0 < |f.bytes| <= MAXIMUM_ASSET_BYTES && SafeFileName(f.name)
  }

  predicate FilesOk(fs: seq<FileInfo>) {
    && fs != [] && (forall i :: 0 <= i < |fs| ==> FileOk(fs[i]))
    && forall i, j :: 0 <= i < j < |fs| ==> fs[i].name != fs[j].name
  }

  function AssetsOf(fs: seq<FileInfo>): (assets: seq<Asset>)
    ensures |assets| == |fs| && forall i :: 0 <= i < |fs| ==> assets[i] == Asset(fs[i].name, fs[i].bytes)
  {
    if fs == [] then [] else [Asset(fs[0].name, fs[0].bytes)] + AssetsOf(fs[1..])
  }

  /** Code point order of names. */
  function ByName(): (Asset, Asset) -> bool {
    (x: Asset, y: Asset) => Text.NotAfter(x.name, y.name)
  }

  /** Accepts exactly non-empty lists of bounded regular files with safe, distinct names. */
  method InspectAssets(paths: seq<FileInfo>) returns (r: Result<seq<Asset>>)
    ensures r.Ok? <==> FilesOk(paths)
    ensures r.Ok? ==> multiset(r.value) == multiset(AssetsOf(paths)) && LocalsUnique(r.value)
    ensures r.Ok? ==> Sorting.Sorted(r.value, ByName())
  {
    hide SafeFileName, ByName, AssetsOf, LocalsUnique, Sorting.Sorted;
    if paths == [] {
      return Rejected;
    }
    var assets: seq<Asset> := [];
    var names: set<string> := {};
    for i := 0 to |paths|
      invariant forall k :: 0 <= k < i ==> FileOk(paths[k]) && paths[k].name in names
      invariant forall n :: n in names ==> exists k :: 0 <= k < i && paths[k].name == n
      invariant forall j, k :: 0 <= j < k < i ==> paths[j].name != paths[k].name
      invariant |assets| == i && forall k :: 0 <= k < i ==> assets[k] == Asset(paths[k].name, paths[k].bytes)
    {
      var path := paths[i];
      if !path.regular || path.symlink || |path.bytes| == 0 || |path.bytes| > MAXIMUM_ASSET_BYTES {
        return Rejected;
      }
      if !SafeFileName(path.name) || path.name in names {
        return Rejected;
      }
      names := names + {path.name};
      assets := assets + [Asset(path.name, path.bytes)];
    }
    AssetsAre(paths, assets);
    SortedByName(assets);
    r := Ok(Sorting.Sort(assets, ByName()));
  }

  lemma NamesOrdered()
    ensures Sorting.IsOrder(ByName())
  {
    forall x: Asset, y: Asset ensures Text.NotAfter(x.name, y.name) || Text.NotAfter(y.name, x.name) {
      Text.NotAfterTotal(x.name, y.name);
    }
    forall x: Asset, y: Asset, z: Asset | Text.NotAfter(x.name, y.name) && Text.NotAfter(y.name, z.name)
      ensures Text.NotAfter(x.name, z.name)
    {
      Text.NotAfterTransitive(x.name, y.name, z.name);
    }
  }

  lemma SortedByName(assets: seq<Asset>)
    requires LocalsUnique(assets)
    ensures var sorted := Sorting.Sort(assets, ByName());
      LocalsUnique(sorted) && Sorting.Sorted(sorted, ByName())
  {
    hide Sorting.IsOrder, LocalsUnique;
    UniqueUnderSort(assets);
    NamesOrdered();
    Sorting.SortSorts(assets, ByName());
  }

  lemma AssetsAre(paths: seq<FileInfo>, assets: seq<Asset>)
    requires |assets| == |paths| && forall k :: 0 <= k < |paths| ==> assets[k] == Asset(paths[k].name, paths[k].bytes)
    requires forall j, k :: 0 <= j < k < |paths| ==> paths[j].name != paths[k].name
    ensures assets == AssetsOf(paths) && LocalsUnique(assets)
  {
  }

  /** Permuting a list without repeated names repeats none. */
  lemma UniqueUnderSort(assets: seq<Asset>)
    requires LocalsUnique(assets)
    ensures LocalsUnique(Sorting.Sort(assets, ByName()))
  {
    var sorted := Sorting.Sort(assets, ByName());
    forall i, j | 0 <= i < j < |sorted| ensures sorted[i].name != sorted[j].name {
      assert sorted[i] in multiset(assets) && sorted[j] in multiset(assets);
      MultisetSingle(assets, sorted[i]);
      if sorted[i] == sorted[j] {
        MultisetPair(sorted, i, j);
      }
    }
  }

  lemma {:induction false} MultisetPair(s: seq<Asset>, i: nat, j: nat)
    requires i < j < |s| && s[i] == s[j]
    ensures multiset(s)[s[i]] >= 2
  {
    assert s == s[..i] + [s[i]] + s[i + 1..j] + [s[j]] + s[j + 1..];
  }

  lemma {:induction false} MultisetSingle(s: seq<Asset>, a: Asset)
    requires LocalsUnique(s)
    ensures multiset(s)[a] <= 1
  {
    if s != [] {
      assert s == [s[0]] + s[1..];
      MultisetSingle(s[1..], a);
      forall k | 0 <= k < |s[1..]| ensures s[1..][k] != s[0] {
        assert s[k + 1] == s[1..][k];
      }
    }
  }

  // ---------- Reading a release ----------

  /** The observed map holds exactly the listed assets, by name. */
  predicate Observes(observed: map<string, RemoteAsset>, rel: Release) {
    && (forall i :: 0 <= i < |rel.assets| ==> rel.assets[i].name in observed && observed[rel.assets[i].name] == rel.assets[i])
    && observed.Keys == RemoteNames(rel.assets)
  }

  predicate Listing(expectedNames: set<string>, asset: RemoteAsset) {
    asset.name in expectedNames && asset.uploaded && asset.id > 0
  }

  /** The first assets are acceptable, have distinct names, and are what has been observed. */
  predicate Seen(expectedNames: set<string>, assets: seq<RemoteAsset>, observed: map<string, RemoteAsset>) {
    && (forall k :: 0 <= k < |assets| ==>
          && Listing(expectedNames, assets[k])
          && assets[k].name in observed && observed[assets[k].name] == assets[k])
    && (forall n :: n in observed ==> exists k :: 0 <= k < |assets| && assets[k].name == n)
    && NamesUnique(assets)
  }

  lemma SeenNext(expectedNames: set<string>, assets: seq<RemoteAsset>, observed: map<string, RemoteAsset>, asset: RemoteAsset)
    requires Seen(expectedNames, assets, observed)
    ensures asset.name !in observed && Listing(expectedNames, asset) ==>
      Seen(expectedNames, assets + [asset], observed[asset.name := asset])
    ensures asset.name in observed ==> !NamesUnique(assets + [asset])
  {
    var all := assets + [asset];
    assert forall k :: 0 <= k < |assets| ==> all[k] == assets[k];
    assert all[|assets|] == asset;
    var extended := observed[asset.name := asset];
    forall n | n in extended ensures exists k :: 0 <= k < |all| && all[k].name == n {
      if n != asset.name {
        var k :| 0 <= k < |assets| && assets[k].name == n;
        assert all[k].name == n;
      } else {
        assert all[|assets|].name == n;
      }
    }
    if asset.name in observed {
      var k :| 0 <= k < |assets| && assets[k].name == asset.name;
      assert all[k].name == all[|assets|].name;
    }
  }

  lemma UniquePrefix(assets: seq<RemoteAsset>, k: nat)
    requires k <= |assets| && NamesUnique(assets)
    ensures NamesUnique(assets[..k])
  {
  }

  method ValidateRelease(inputs: Inputs, rel: Release, allowDraft: bool, requireImmutable: bool)
    returns (r: Result<map<string, RemoteAsset>>)
    ensures r.Ok? <==> ReleaseOk(inputs, rel, allowDraft, requireImmutable)
    ensures r.Ok? ==> Observes(r.value, rel)
  {
    hide ExpectedNames, Observes, NamesUnique;
    if rel.tag != inputs.tag || rel.title != inputs.title || rel.prerelease != inputs.prerelease {
      return Rejected;
    }
    if (rel.draft && !allowDraft) || (requireImmutable && !rel.immutable) {
      return Rejected;
    }
    var expectedNames := ExpectedNames(inputs);
    var observed: map<string, RemoteAsset> := map[];
    SeenNothing(expectedNames);
    for i := 0 to |rel.assets|
      invariant Seen(expectedNames, rel.assets[..i], observed)
    {
      var asset := rel.assets[i];
      SeenNext(expectedNames, rel.assets[..i], observed, asset);
      assert rel.assets[..i + 1] == rel.assets[..i] + [asset];
      if asset.name in observed {
        if NamesUnique(rel.assets) {
          UniquePrefix(rel.assets, i + 1);
        }
        return Rejected;
      }
      if asset.name !in expectedNames || !asset.uploaded || asset.id <= 0 {
        return Rejected;
      }
      observed := observed[asset.name := asset];
    }
    assert rel.assets[..|rel.assets|] == rel.assets;
    ObservesAll(observed, rel);
    r := Ok(observed);
  }

  lemma SeenNothing(expectedNames: set<string>)
    ensures Seen(expectedNames, [], map[])
  {
  }

  lemma ObservesAll(observed: map<string, RemoteAsset>, rel: Release)
    requires forall k :: 0 <= k < |rel.assets| ==>
      rel.assets[k].name in observed && observed[rel.assets[k].name] == rel.assets[k]
    requires forall n :: n in observed ==> exists k :: 0 <= k < |rel.assets| && rel.assets[k].name == n
    ensures Observes(observed, rel)
  {
  }

  /** A listed asset with the local name is accepted only if its downloaded bytes are the local ones. */
  method VerifyRemoteAsset(service: Service, hash: Hash, local: Asset, ghost index: nat, remote: RemoteAsset)
    returns (ok: bool)
    requires Injective(hash) && service.Valid(hash) && service.release.Some?
    requires index < |service.release.value.assets| && service.release.value.assets[index] == remote
    requires remote.name == local.name
    ensures ok ==> Same(local, remote)
    ensures !service.faulty && remote.uploaded && Same(local, remote) ==> ok
  {
    if remote.size != |local.bytes| {
      return false;
    }
    if remote.digest !in {None, Some(""), Some("sha256:" + hash.sha256(local.bytes))} {
      return false;
    }
    var downloaded := service.Download(hash, remote.id, index);
    if downloaded.Rejected? || |downloaded.value| != |local.bytes| {
      return false;
    }
    return hash.sha256(downloaded.value) == hash.sha256(local.bytes);
  }

  method ValidateTagBinding(service: Service, inputs: Inputs, expectedObject: Option<string>)
    returns (r: Result<TagBinding>)
    ensures r.Ok? ==> r.value == service.binding
    ensures r.Ok? ==>
      && service.binding.tag == inputs.tag && service.binding.commit == inputs.expectedCommit
      && service.binding.message == inputs.expectedMessage
      && (expectedObject.Some? ==> service.binding.tagObject == expectedObject.value)
    ensures r.Rejected? && !service.faulty ==>
      || service.binding.tag != inputs.tag || service.binding.commit != inputs.expectedCommit
      || service.binding.message != inputs.expectedMessage
      || (expectedObject.Some? && service.binding.tagObject != expectedObject.value)
  {
    var binding := service.LookupBinding();
    if binding.Rejected? || binding.value.tag != inputs.tag || binding.value.commit != inputs.expectedCommit {
      return Rejected;
    }
    if binding.value.message != inputs.expectedMessage {
      return Rejected;
    }
    if expectedObject.Some? && binding.value.tagObject != expectedObject.value {
      return Rejected;
    }
    return binding;
  }

  // ---------- The three loops over the local assets ----------

  /** Some listed asset has the name. */
  predicate Lists(rel: Release, name: string) {
    exists i :: 0 <= i < |rel.assets| && rel.assets[i].name == name
  }

  lemma ObservedIndex(observed: map<string, RemoteAsset>, rel: Release, name: string) returns (i: nat)
    requires Observes(observed, rel) && name in observed
    ensures i < |rel.assets| && rel.assets[i] == observed[name] && observed[name].name == name
  {
    assert name in RemoteNames(rel.assets);
    i :| 0 <= i < |rel.assets| && rel.assets[i].name == name;
  }

  /** The first local assets agree with the release where it lists them. */
  predicate AgreeUpTo(assets: seq<Asset>, n: nat, rel: Release)
    requires n <= |assets|
  {
    NoneDiffers(assets[..n], rel)
  }

  lemma AgreeNext(assets: seq<Asset>, n: nat, rel: Release, observed: map<string, RemoteAsset>)
    requires n < |assets| && AgreeUpTo(assets, n, rel) && Observes(observed, rel)
    requires assets[n].name in observed ==> Same(assets[n], observed[assets[n].name])
    ensures AgreeUpTo(assets, n + 1, rel)
  {
    var first := assets[..n + 1];
    forall i, j | 0 <= i < |rel.assets| && 0 <= j < |first| && rel.assets[i].name == first[j].name
      ensures Same(first[j], rel.assets[i])
    {
      assert j < n ==> first[j] == assets[..n][j];
    }
  }

  lemma AgreeAll(assets: seq<Asset>, rel: Release)
    requires AgreeUpTo(assets, |assets|, rel)
    ensures NoneDiffers(assets, rel)
  {
    assert assets[..|assets|] == assets;
  }

  /** Proves every byte that is already there, before anything is changed. */
  method VerifyPresent(service: Service, hash: Hash, assets: seq<Asset>, rel: Release, observed: map<string, RemoteAsset>)
    returns (ok: bool)
    requires Injective(hash) && service.Valid(hash) && service.release == Some(rel) && Observes(observed, rel)
    requires forall i :: 0 <= i < |rel.assets| ==> rel.assets[i].uploaded
    ensures ok ==> NoneDiffers(assets, rel)
    ensures !service.faulty && NoneDiffers(assets, rel) ==> ok
  {
    hide Observes, Same, service.Valid, Injective;
    assert AgreeUpTo(assets, 0, rel);
    for i := 0 to |assets|
      invariant AgreeUpTo(assets, i, rel)
    {
      var asset := assets[i];
      if asset.name in observed {
        ghost var index := ObservedIndex(observed, rel, asset.name);
        var same := VerifyRemoteAsset(service, hash, asset, index, observed[asset.name]);
        if !same {
          return false;
        }
      }
      AgreeNext(assets, i, rel, observed);
    }
    AgreeAll(assets, rel);
    return true;
  }

  /** Everything beyond the first assets is the upload of one of the first local assets. */
  predicate FromFirst(assets: seq<Asset>, n: nat, from: nat, rel: Release) {
    forall i :: from <= i < |rel.assets| ==> exists j :: 0 <= j < n && j < |assets| && Same(assets[j], rel.assets[i])
  }

  /** The release between two uploads: the base, and the missing ones among the first local assets. */
  predicate Uploading(inputs: Inputs, base: Release, rel: Release, n: nat) {
    && rel == base.(assets := rel.assets) && base.assets <= rel.assets
    && ReleaseOk(inputs, rel, true, false) && NoneDiffers(inputs.assets, rel)
    && FromFirst(inputs.assets, n, |base.assets|, rel)
    && forall j :: 0 <= j < n && j < |inputs.assets| ==> Lists(rel, inputs.assets[j].name)
  }

  /** A name missing from the base is not among the uploads of the local assets before it. */
  lemma NotYetListed(inputs: Inputs, base: Release, rel: Release, n: nat)
    requires LocalsUnique(inputs.assets) && n < |inputs.assets| && Uploading(inputs, base, rel, n)
    requires !Lists(base, inputs.assets[n].name)
    ensures forall i :: 0 <= i < |rel.assets| ==> rel.assets[i].name != inputs.assets[n].name
  {
    hide ReleaseOk, NoneDiffers;
    forall i | 0 <= i < |rel.assets| ensures rel.assets[i].name != inputs.assets[n].name {
      if i < |base.assets| {
        assert base.assets[i] == rel.assets[i];
      }
    }
  }

  lemma UploadNames(rel: Release, after: Release, a: Asset)
    requires NamesUnique(rel.assets) && UploadedTo(rel, after, a.name, a.bytes, false)
    requires forall i :: 0 <= i < |rel.assets| ==> rel.assets[i].name != a.name
    ensures NamesUnique(after.assets)
  {
    assert forall i :: 0 <= i < |rel.assets| ==> after.assets[i] == rel.assets[i];
  }

  lemma UploadKeepsOk(inputs: Inputs, rel: Release, after: Release, a: Asset)
    requires ReleaseOk(inputs, rel, true, false) && UploadedTo(rel, after, a.name, a.bytes, true)
    requires forall i :: 0 <= i < |rel.assets| ==> rel.assets[i].name != a.name
    requires a.name in ExpectedNames(inputs)
    ensures ReleaseOk(inputs, after, true, false)
  {
    hide ExpectedNames, NamesUnique;
    UploadNames(rel, after, a);
    assert forall i :: 0 <= i < |rel.assets| ==> after.assets[i] == rel.assets[i];
  }

  lemma UploadKeepsAgreement(assets: seq<Asset>, rel: Release, after: Release, n: nat)
    requires LocalsUnique(assets) && n < |assets| && NoneDiffers(assets, rel)
    requires UploadedTo(rel, after, assets[n].name, assets[n].bytes, true)
    ensures NoneDiffers(assets, after)
  {
    forall i, j | 0 <= i < |after.assets| && 0 <= j < |assets| && after.assets[i].name == assets[j].name
      ensures Same(assets[j], after.assets[i])
    {
      if i < |rel.assets| {
        assert after.assets[i] == rel.assets[i];
      } else {
        assert j == n;
      }
    }
  }

  lemma ListsMore(rel: Release, after: Release, name: string)
    requires Lists(rel, name) && rel.assets <= after.assets
    ensures Lists(after, name)
  {
    var i :| 0 <= i < |rel.assets| && rel.assets[i].name == name;
    assert after.assets[i].name == name;
  }

  lemma UploadNext(inputs: Inputs, base: Release, rel: Release, after: Release, n: nat)
    requires LocalsUnique(inputs.assets) && n < |inputs.assets| && Uploading(inputs, base, rel, n)
    requires !Lists(base, inputs.assets[n].name) && inputs.assets[n].name in ExpectedNames(inputs)
    requires UploadedTo(rel, after, inputs.assets[n].name, inputs.assets[n].bytes, true)
    ensures Uploading(inputs, base, after, n + 1)
  {
    hide ReleaseOk, NoneDiffers, Lists, LocalsUnique, ExpectedNames;
    var a := inputs.assets[n];
    NotYetListed(inputs, base, rel, n);
    UploadKeepsOk(inputs, rel, after, a);
    UploadKeepsAgreement(inputs.assets, rel, after, n);
    assert rel.assets <= after.assets;
    forall j | 0 <= j < n + 1 ensures Lists(after, inputs.assets[j].name) {
      if j < n {
        ListsMore(rel, after, inputs.assets[j].name);
      } else {
        ListsLast(after, a.name);
      }
    }
    forall i | |base.assets| <= i < |after.assets|
      ensures exists j :: 0 <= j < n + 1 && j < |inputs.assets| && Same(inputs.assets[j], after.assets[i])
    {
      if i < |rel.assets| {
        assert after.assets[i] == rel.assets[i];
        var j :| 0 <= j < n && j < |inputs.assets| && Same(inputs.assets[j], rel.assets[i]);
        assert Same(inputs.assets[j], after.assets[i]);
      } else {
        assert Same(inputs.assets[n], after.assets[i]);
      }
    }
  }

  lemma ListsLast(rel: Release, name: string)
    requires rel.assets != [] && rel.assets[|rel.assets| - 1].name == name
    ensures Lists(rel, name)
  {
  }

  /** A local asset that is already listed needs no upload. */
  lemma SkipNext(inputs: Inputs, base: Release, rel: Release, n: nat)
    requires n < |inputs.assets| && Uploading(inputs, base, rel, n) && Lists(base, inputs.assets[n].name)
    ensures Uploading(inputs, base, rel, n + 1)
  {
    hide ReleaseOk, NoneDiffers, Lists;
    ListsMore(base, rel, inputs.assets[n].name);
    forall i | |base.assets| <= i < |rel.assets|
      ensures exists j :: 0 <= j < n + 1 && j < |inputs.assets| && Same(inputs.assets[j], rel.assets[i])
    {
      var j :| 0 <= j < n && j < |inputs.assets| && Same(inputs.assets[j], rel.assets[i]);
    }
  }

  /** What an interrupted sequence of uploads leaves behind. */
  predicate Interrupted(inputs: Inputs, base: Release, rel: Release) {
    && rel == base.(assets := rel.assets) && base.assets <= rel.assets
    && AppendsLocal(inputs.assets, |base.assets|, rel) && NamesUnique(rel.assets)
  }

  lemma UploadingIsInterrupted(inputs: Inputs, base: Release, rel: Release, n: nat)
    requires Uploading(inputs, base, rel, n)
    ensures Interrupted(inputs, base, rel)
  {
    hide ExpectedNames, NamesUnique, NoneDiffers, Lists;
    forall i | |base.assets| <= i < |rel.assets| ensures IsLocal(inputs.assets, rel.assets[i]) {
      var j :| 0 <= j < n && j < |inputs.assets| && Same(inputs.assets[j], rel.assets[i]);
    }
  }

  lemma PartialUpload(inputs: Inputs, base: Release, rel: Release, after: Release, n: nat)
    requires n < |inputs.assets| && Uploading(inputs, base, rel, n)
    requires UploadedTo(rel, after, inputs.assets[n].name, inputs.assets[n].bytes, false)
    requires forall i :: 0 <= i < |rel.assets| ==> rel.assets[i].name != inputs.assets[n].name
    ensures Interrupted(inputs, base, after)
  {
    hide ReleaseOk, NoneDiffers, Lists;
    UploadingIsInterrupted(inputs, base, rel, n);
    UploadNames(rel, after, inputs.assets[n]);
    forall i | |base.assets| <= i < |after.assets| ensures IsLocal(inputs.assets, after.assets[i]) {
      if i < |rel.assets| {
        assert after.assets[i] == rel.assets[i];
      } else {
        assert after.assets[i].name == inputs.assets[n].name;
      }
    }
  }

  lemma ObservedIffListed(observed: map<string, RemoteAsset>, rel: Release, name: string)
    requires Observes(observed, rel)
    ensures name in observed <==> Lists(rel, name)
  {
    if name in observed {
      var i := ObservedIndex(observed, rel, name);
    }
  }

  /** One upload; whatever happens, the release is either between two uploads or interrupted. */
  method UploadOne(service: Service, hash: Hash, inputs: Inputs, ghost base: Release, i: nat) returns (ok: bool)
    requires service.Valid(hash) && service.release.Some? && i < |inputs.assets|
    requires LocalsUnique(inputs.assets) && inputs.assets[i].name in ExpectedNames(inputs)
    requires Uploading(inputs, base, service.release.value, i) && !Lists(base, inputs.assets[i].name)
    modifies service
    ensures service.Valid(hash) && service.release.Some?
    ensures Interrupted(inputs, base, service.release.value)
    ensures ok ==> Uploading(inputs, base, service.release.value, i + 1)
    ensures !ok ==> service.faulty
  {
    hide LocalsUnique, ExpectedNames, Lists, service.Valid, Uploading, Interrupted, UploadedTo;
    ghost var before := service.release.value;
    UploadingIsInterrupted(inputs, base, before, i);
    NotYetListed(inputs, base, before, i);
    ok := service.Upload(hash, inputs.assets[i].name, inputs.assets[i].bytes);
    if ok {
      UploadNext(inputs, base, before, service.release.value, i);
      UploadingIsInterrupted(inputs, base, service.release.value, i + 1);
    } else if service.release != Some(before) {
      PartialUpload(inputs, base, before, service.release.value, i);
    }
  }

  /** Uploads what is missing, in order; a published release must already list everything. */
  method UploadMissing(service: Service, hash: Hash, inputs: Inputs, base: Release, observed: map<string, RemoteAsset>)
    returns (ok: bool, uploaded: set<string>)
    requires service.Valid(hash) && service.release == Some(base) && Observes(observed, base)
    requires LocalsUnique(inputs.assets) && LocalNames(inputs.assets) <= ExpectedNames(inputs)
    requires ReleaseOk(inputs, base, true, false) && NoneDiffers(inputs.assets, base)
    modifies service
    ensures service.Valid(hash) && service.release.Some?
    ensures Interrupted(inputs, base, service.release.value)
    ensures !base.draft ==> service.release == Some(base)
    ensures ok ==> Uploading(inputs, base, service.release.value, |inputs.assets|)
    ensures ok ==> uploaded == LocalNames(inputs.assets) - observed.Keys
    ensures !ok && !service.faulty ==> !base.draft && !(LocalNames(inputs.assets) <= observed.Keys)
  {
    hide ReleaseOk, NoneDiffers, Observes, Lists, LocalsUnique, LocalNames, ExpectedNames, service.Valid, Uploading,
         Interrupted;
    ok, uploaded := false, {};
    UploadStart(inputs, base);
    for i := 0 to |inputs.assets|
      invariant service.Valid(hash) && service.release.Some?
      invariant Uploading(inputs, base, service.release.value, i) && Interrupted(inputs, base, service.release.value)
      invariant !base.draft ==> service.release == Some(base)
      invariant uploaded == LocalNames(inputs.assets[..i]) - observed.Keys
    {
      var asset := inputs.assets[i];
      ObservedIffListed(observed, base, asset.name);
      NamesStep(inputs.assets, i);
      if asset.name !in observed {
        if !base.draft {
          return;
        }
        var done := UploadOne(service, hash, inputs, base, i);
        if !done {
          return;
        }
        uploaded := uploaded + {asset.name};
      } else {
        SkipNext(inputs, base, service.release.value, i);
      }
    }
    assert inputs.assets[..|inputs.assets|] == inputs.assets;
    ok := true;
  }

  lemma UploadStart(inputs: Inputs, base: Release)
    requires ReleaseOk(inputs, base, true, false) && NoneDiffers(inputs.assets, base)
    ensures Uploading(inputs, base, base, 0) && Interrupted(inputs, base, base)
    ensures LocalNames(inputs.assets[..0]) == {}
  {
  }

  lemma NamesStep(assets: seq<Asset>, i: nat)
    requires i < |assets|
    ensures LocalNames(assets[..i + 1]) == LocalNames(assets[..i]) + {assets[i].name}
    ensures assets[i].name in LocalNames(assets)
  {
    var first, more := assets[..i], assets[..i + 1];
    assert forall k :: 0 <= k < i ==> more[k] == first[k];
    assert more[i] == assets[i];
    forall n | n in LocalNames(more) ensures n in LocalNames(first) + {assets[i].name} {
      var k :| 0 <= k < |more| && more[k].name == n;
      if k < i {
        assert first[k].name == n;
      }
    }
    forall n | n in LocalNames(first) ensures n in LocalNames(more) {
      var k :| 0 <= k < |first| && first[k].name == n;
      assert more[k].name == n;
    }
  }

  /** The first local assets are on the release, byte for byte. */
  predicate PresentUpTo(assets: seq<Asset>, n: nat, rel: Release)
    requires n <= |assets|
  {
    AllPresent(assets[..n], rel.assets)
  }

  lemma PresentNext(assets: seq<Asset>, n: nat, rel: Release, i: nat)
    requires n < |assets| && PresentUpTo(assets, n, rel) && i < |rel.assets| && Same(assets[n], rel.assets[i])
    ensures PresentUpTo(assets, n + 1, rel)
  {
    var first := assets[..n + 1];
    forall j | 0 <= j < |first| ensures HasCopy(rel.assets, first[j]) {
      if j < n {
        assert first[j] == assets[..n][j];
      } else {
        assert Same(first[j], rel.assets[i]);
      }
    }
  }

  lemma PresentAll(assets: seq<Asset>, rel: Release)
    requires PresentUpTo(assets, |assets|, rel)
    ensures AllPresent(assets, rel.assets)
  {
    assert assets[..|assets|] == assets;
  }

  lemma AgreesAt(assets: seq<Asset>, rel: Release, i: nat, j: nat)
    requires NoneDiffers(assets, rel) && i < |rel.assets| && j < |assets| && rel.assets[i].name == assets[j].name
    ensures Same(assets[j], rel.assets[i])
  {
  }

  /** Downloads and compares every local asset once more. */
  method VerifyAll(service: Service, hash: Hash, assets: seq<Asset>, rel: Release, observed: map<string, RemoteAsset>)
    returns (ok: bool)
    requires Injective(hash) && service.Valid(hash) && service.release == Some(rel) && Observes(observed, rel)
    requires forall i :: 0 <= i < |rel.assets| ==> rel.assets[i].uploaded
    requires forall j :: 0 <= j < |assets| ==> assets[j].name in observed
    ensures ok ==> AllPresent(assets, rel.assets)
    ensures !service.faulty && NoneDiffers(assets, rel) ==> ok
  {
    hide Observes, Same, service.Valid, Injective, NoneDiffers, AllPresent;
    assert PresentUpTo(assets, 0, rel) by {
      PresentNone(assets, rel);
    }
    for i := 0 to |assets|
      invariant PresentUpTo(assets, i, rel)
    {
      ghost var index := ObservedIndex(observed, rel, assets[i].name);
      if NoneDiffers(assets, rel) {
        AgreesAt(assets, rel, index, i);
      }
      var same := VerifyRemoteAsset(service, hash, assets[i], index, observed[assets[i].name]);
      if !same {
        return false;
      }
      PresentNext(assets, i, rel, index);
    }
    PresentAll(assets, rel);
    return true;
  }

  lemma PresentNone(assets: seq<Asset>, rel: Release)
    ensures PresentUpTo(assets, 0, rel)
  {
  }

  // ---------- One attempt ----------

  datatype ReconcileResult = ReconcileResult(uploaded: set<string>, binding: TagBinding)

  function FreshDraft(inputs: Inputs): Release {
    Release(inputs.tag, inputs.title, inputs.prerelease, true, false, [])
  }

  /** The release an attempt works on: the one it found, or the draft it created. */
  predicate Opened(inputs: Inputs, before: Option<Release>, base: Release) {
    before == Some(base) || (before.None? && base == FreshDraft(inputs))
  }

  lemma OpenedIsSafe(inputs: Inputs, before: Option<Release>, base: Release)
    requires Opened(inputs, before, base)
    ensures SafeAttempt(inputs, before, before) && SafeAttempt(inputs, before, Some(base))
  {
  }

  method OpenRelease(service: Service, hash: Hash, inputs: Inputs) returns (r: Result<Release>)
    requires service.Valid(hash)
    modifies service
    ensures service.Valid(hash)
    ensures service.release == old(service.release) ||
            (service.release.Some? && Opened(inputs, old(service.release), service.release.value))
    ensures r.Ok? ==> service.release == Some(r.value) && Opened(inputs, old(service.release), r.value)
    ensures r.Rejected? ==> service.faulty
  {
    var found := service.Lookup();
    if found.Rejected? {
      return Rejected;
    }
    if found.value.None? {
      var ok := service.Create(hash, inputs.tag, inputs.title, inputs.prerelease);
      if !ok {
        return Rejected;
      }
      found := service.Lookup();
      if found.Rejected? || found.value.None? {
        return Rejected;
      }
    }
    r := Ok(found.value.value);
  }

  /** Uploads that were interrupted, or not, leave the release safe. */
  lemma InterruptedIsSafe(inputs: Inputs, before: Option<Release>, base: Release, rel: Release)
    requires Opened(inputs, before, base) && Interrupted(inputs, base, rel) && (!base.draft ==> rel == base)
    requires ReleaseOk(inputs, base, true, false) && NoneDiffers(inputs.assets, base)
    ensures SafeAttempt(inputs, before, Some(rel))
  {
    hide NoneDiffers, IsLocal, Exact, ExpectedNames;
  }

  /** Publishing a release that holds exactly the local assets is safe. */
  lemma PublishedIsSafe(inputs: Inputs, before: Option<Release>, base: Release, rel: Release, after: Release)
    requires Opened(inputs, before, base) && Interrupted(inputs, base, rel) && (!base.draft ==> rel == base)
    requires ReleaseOk(inputs, base, true, false) && NoneDiffers(inputs.assets, base)
    requires !inputs.draftOnly && Exact(inputs.assets, rel.assets) && rel.draft
    requires after == rel.(draft := false, prerelease := inputs.prerelease, immutable := true)
    requires ExpectedNames(inputs) == LocalNames(inputs.assets)
    ensures SafeAttempt(inputs, before, Some(after))
  {
    hide NoneDiffers, IsLocal, Exact, ExpectedNames, LocalNames;
  }

  /** A release that lists exactly the local names, all verified, holds exactly the local assets. */
  lemma ExactFrom(assets: seq<Asset>, remotes: seq<RemoteAsset>)
    requires NamesUnique(remotes) && AllPresent(assets, remotes) && RemoteNames(remotes) == LocalNames(assets)
    ensures Exact(assets, remotes)
  {
    forall i | 0 <= i < |remotes| ensures IsCopy(assets, remotes[i]) {
      assert remotes[i].name in LocalNames(assets);
      var j :| 0 <= j < |assets| && assets[j].name == remotes[i].name;
      assert HasCopy(remotes, assets[j]);
      var k :| 0 <= k < |remotes| && Same(assets[j], remotes[k]);
      assert k == i;
    }
  }

  /** The names a release may list, and does once all local assets are on it. */
  lemma NamesBetween(inputs: Inputs, rel: Release)
    requires ReleaseOk(inputs, rel, true, false) && AllPresent(inputs.assets, rel.assets)
    ensures LocalNames(inputs.assets) <= RemoteNames(rel.assets) <= ExpectedNames(inputs)
  {
    hide ExpectedNames, NamesUnique;
    forall j | 0 <= j < |inputs.assets| ensures inputs.assets[j].name in RemoteNames(rel.assets) {
      assert HasCopy(rel.assets, inputs.assets[j]);
    }
  }

  lemma AllListed(inputs: Inputs, base: Release, rel: Release)
    requires Uploading(inputs, base, rel, |inputs.assets|)
    ensures LocalNames(inputs.assets) <= RemoteNames(rel.assets)
    ensures RemoteNames(base.assets) <= RemoteNames(rel.assets)
  {
    hide ReleaseOk, NoneDiffers;
    forall j | 0 <= j < |inputs.assets| ensures inputs.assets[j].name in RemoteNames(rel.assets) {
      assert Lists(rel, inputs.assets[j].name);
    }
    forall i | 0 <= i < |base.assets| ensures base.assets[i].name in RemoteNames(rel.assets) {
      assert base.assets[i] == rel.assets[i];
    }
  }

  /** The release may be worked on: it is as expected, and complete if it is already published. */
  predicate Workable(inputs: Inputs, before: Option<Release>) {
    before.Some? ==>
      && ReleaseOk(inputs, before.value, true, false) && NoneDiffers(inputs.assets, before.value)
      && (!before.value.draft ==> LocalNames(inputs.assets) <= RemoteNames(before.value.assets))
  }

  /** The release between the last upload and a decision to publish. */
  predicate Populated(inputs: Inputs, before: Option<Release>, base: Release, rel: Release) {
    && Opened(inputs, before, base) && Interrupted(inputs, base, rel) && (!base.draft ==> rel == base)
    && ReleaseOk(inputs, base, true, false) && NoneDiffers(inputs.assets, base)
    && ReleaseOk(inputs, rel, true, false) && NoneDiffers(inputs.assets, rel)
    && AllPresent(inputs.assets, rel.assets)
  }

  lemma DraftIsWorkable(inputs: Inputs)
    ensures ReleaseOk(inputs, FreshDraft(inputs), true, false) && NoneDiffers(inputs.assets, FreshDraft(inputs))
  {
  }

  /** Opens the release, checks it, uploads what is missing and checks it again. */
  method Populate(service: Service, hash: Hash, inputs: Inputs)
    returns (r: Result<Release>, uploaded: set<string>, observed: map<string, RemoteAsset>, ghost base: Release)
    requires Injective(hash) && service.Valid(hash) && LocalsUnique(inputs.assets)
    requires LocalNames(inputs.assets) <= ExpectedNames(inputs)
    modifies service
    ensures service.Valid(hash) && SafeAttempt(inputs, old(service.release), service.release)
    ensures r.Ok? ==>
      && service.release == Some(r.value) && Populated(inputs, old(service.release), base, r.value)
      && Observes(observed, r.value) && uploaded == LocalNames(inputs.assets) - RemoteNames(base.assets)
    ensures r.Ok? ==> Workable(inputs, old(service.release))
    ensures r.Rejected? && !service.faulty ==> !Workable(inputs, old(service.release))
  {
    hide Injective, service.Valid, LocalsUnique, ExpectedNames, LocalNames, RemoteNames, SafeAttempt, NoneDiffers,
         AllPresent, NamesUnique, Interrupted, Uploading, Lists;
    ghost var before := service.release;
    uploaded, observed, base := {}, map[], FreshDraft(inputs);
    OpenedIsSafe(inputs, before, if before.Some? then before.value else FreshDraft(inputs));
    DraftIsWorkable(inputs);
    r := OpenRelease(service, hash, inputs);
    if r.Rejected? {
      return;
    }
    base := r.value;
    var listing := ValidateRelease(inputs, r.value, true, false);
    if listing.Rejected? {
      r := Rejected;
      return;
    }
    var agree := VerifyPresent(service, hash, inputs.assets, r.value, listing.value);
    if !agree {
      r := Rejected;
      return;
    }
    var done;
    done, uploaded := UploadMissing(service, hash, inputs, r.value, listing.value);
    InterruptedIsSafe(inputs, before, base, service.release.value);
    if !done {
      r := Rejected;
      return;
    }
    AllListed(inputs, base, service.release.value);
    var again := service.Lookup();
    if again.Rejected? || again.value.None? {
      r := Rejected;
      return;
    }
    r, observed := Recheck(service, hash, inputs, again.value.value, base);
  }

  /** The second validation, after the uploads: everything listed, and every byte compared again. */
  method Recheck(service: Service, hash: Hash, inputs: Inputs, rel: Release, ghost base: Release)
    returns (r: Result<Release>, observed: map<string, RemoteAsset>)
    requires Injective(hash) && service.Valid(hash) && service.release == Some(rel)
    requires Uploading(inputs, base, rel, |inputs.assets|)
    ensures r.Ok? ==>
      r.value == rel && Observes(observed, rel) && AllPresent(inputs.assets, rel.assets)
      && ReleaseOk(inputs, rel, true, false) && NoneDiffers(inputs.assets, rel)
    ensures r.Rejected? ==> service.faulty
  {
    hide Injective, service.Valid, ExpectedNames, NoneDiffers, AllPresent, NamesUnique, Lists;
    observed := map[];
    var listing := ValidateRelease(inputs, rel, true, false);
    if listing.Rejected? {
      return Rejected, observed;
    }
    AllListed(inputs, base, rel);
    if !(LocalNames(inputs.assets) <= listing.value.Keys) {
      return Rejected, observed;
    }
    var same := VerifyAll(service, hash, inputs.assets, rel, listing.value);
    if !same {
      return Rejected, observed;
    }
    return Ok(rel), listing.value;
  }

  /** Makes the draft public, after reading the tag once more; nothing else changes. */
  method Publish(service: Service, hash: Hash, inputs: Inputs, ghost before: Option<Release>, ghost base: Release,
                 rel: Release, binding: TagBinding)
    returns (r: Result<TagBinding>)
    requires service.Valid(hash) && service.release == Some(rel) && rel.draft && !inputs.draftOnly
    requires Populated(inputs, before, base, rel) && Exact(inputs.assets, rel.assets)
    requires binding == service.binding && service.immutability
    requires ExpectedNames(inputs) == LocalNames(inputs.assets)
    modifies service
    ensures service.Valid(hash) && SafeAttempt(inputs, before, service.release)
    ensures r.Ok? ==>
      && r.value == service.binding
      && service.release == Some(rel.(draft := false, prerelease := inputs.prerelease, immutable := service.immutability))
    ensures r.Rejected? && !service.faulty ==>
      || service.binding.tag != inputs.tag || service.binding.commit != inputs.expectedCommit
      || service.binding.message != inputs.expectedMessage
  {
    hide service.Valid, ReleaseOk, NoneDiffers, AllPresent, Exact, SafeAttempt, Interrupted, Opened;
    InterruptedIsSafe(inputs, before, base, rel);
    r := ValidateTagBinding(service, inputs, Some(binding.tagObject));
    if r.Rejected? {
      return;
    }
    var ok := service.Finalize(hash, inputs.prerelease);
    if service.release != Some(rel) {
      PublishedIsSafe(inputs, before, base, rel, service.release.value);
    }
    if !ok {
      r := Rejected;
    }
  }

  /** The last look at the published release: immutable, complete, and compared byte by byte. */
  method VerifyFinal(service: Service, hash: Hash, inputs: Inputs, ghost rel: Release) returns (ok: bool)
    requires Injective(hash) && service.Valid(hash) && service.release == Some(rel)
    ensures ok ==>
      && !rel.draft && rel.immutable && NamesUnique(rel.assets)
      && AllPresent(inputs.assets, rel.assets) && RemoteNames(rel.assets) == LocalNames(inputs.assets)
    ensures (&& !service.faulty && ReleaseOk(inputs, rel, false, true) && NoneDiffers(inputs.assets, rel)
             && RemoteNames(rel.assets) == LocalNames(inputs.assets)) ==> ok
  {
    hide Injective, service.Valid, ExpectedNames, NoneDiffers, AllPresent, NamesUnique;
    var final := service.Lookup();
    if final.Rejected? || final.value.None? {
      return false;
    }
    var listing := ValidateRelease(inputs, final.value.value, false, true);
    if listing.Rejected? || listing.value.Keys != LocalNames(inputs.assets) {
      return false;
    }
    ok := VerifyAll(service, hash, inputs.assets, final.value.value, listing.value);
  }

  /** Publishing changes neither what the release lists nor how it compares. */
  lemma PublishedStillOk(inputs: Inputs, rel: Release, after: Release)
    requires ReleaseOk(inputs, rel, true, false) && NoneDiffers(inputs.assets, rel)
    requires after == rel.(draft := false, prerelease := inputs.prerelease, immutable := true)
    ensures ReleaseOk(inputs, after, false, true) && NoneDiffers(inputs.assets, after)
  {
    hide ExpectedNames, NamesUnique;
  }

  /** Success of an attempt: all local assets are there byte for byte, published in full if published. */
  predicate Succeeded(inputs: Inputs, after: Option<Release>) {
    && after.Some? && AllPresent(inputs.assets, after.value.assets) && ReleaseOk(inputs, after.value, true, false)
    && (!inputs.draftOnly ==> !after.value.draft && after.value.immutable && Exact(inputs.assets, after.value.assets))
    && (!after.value.draft ==> after.value.immutable && RemoteNames(after.value.assets) == ExpectedNames(inputs))
  }

  lemma InterruptedKeepsDraft(inputs: Inputs, base: Release, rel: Release)
    requires Interrupted(inputs, base, rel)
    ensures rel.draft == base.draft
  {
  }

  /** What remains once the release is populated: to publish it and look again, or to stop at the draft. */
  method Conclude(service: Service, hash: Hash, inputs: Inputs, ghost before: Option<Release>, ghost base: Release,
                  rel: Release, observed: map<string, RemoteAsset>, binding: TagBinding)
    returns (r: Result<TagBinding>)
    requires Injective(hash) && service.Valid(hash) && service.release == Some(rel)
    requires Populated(inputs, before, base, rel) && Observes(observed, rel)
    requires Guarded(inputs, service.immutability, service.binding) && binding == service.binding
    modifies service
    ensures service.Valid(hash) && SafeAttempt(inputs, before, service.release)
    ensures r.Ok? ==> r.value == service.binding && Succeeded(inputs, service.release)
    ensures r.Ok? ==> base.draft || (base.immutable && RemoteNames(base.assets) == ExpectedNames(inputs))
    ensures r.Rejected? && !service.faulty ==>
      !base.draft && !(base.immutable && RemoteNames(base.assets) == ExpectedNames(inputs))
  {
    hide Injective, service.Valid, ExpectedNames, LocalNames, RemoteNames, NoneDiffers, AllPresent, NamesUnique,
         Exact, SafeAttempt, Interrupted, FreshDraft;
    InterruptedIsSafe(inputs, before, base, rel);
    NamesBetween(inputs, rel);
    InterruptedKeepsDraft(inputs, base, rel);
    if inputs.draftOnly {
      if !rel.draft && (observed.Keys != ExpectedNames(inputs) || !rel.immutable) {
        return Rejected;
      }
      return Ok(binding);
    }
    if observed.Keys != ExpectedNames(inputs) {
      return Rejected;
    }
    ExactFrom(inputs.assets, rel.assets);
    r := Ok(binding);
    if rel.draft {
      r := Publish(service, hash, inputs, before, base, rel, binding);
      if r.Rejected? {
        return;
      }
      PublishedStillOk(inputs, rel, service.release.value);
    }
    var ok := VerifyFinal(service, hash, inputs, service.release.value);
    if !ok {
      r := Rejected;
    }
  }

  function ListedNames(r: Option<Release>): set<string> {
    if r.Some? then RemoteNames(r.value.assets) else {}
  }

  /**
   * One attempt, cut short by any failing call. Whatever happens, it is safe; it succeeds only with every
   * byte in place; and when no call fails it succeeds exactly from the releases it can resume.
   */
  method Reconcile(service: Service, hash: Hash, inputs: Inputs) returns (r: Result<ReconcileResult>)
    requires Injective(hash) && service.Valid(hash) && LocalsUnique(inputs.assets)
    modifies service
    ensures service.Valid(hash) && SafeAttempt(inputs, old(service.release), service.release)
    ensures r.Ok? ==> Succeeded(inputs, service.release) && r.value.binding == service.binding
    ensures r.Ok? ==> r.value.uploaded == LocalNames(inputs.assets) - ListedNames(old(service.release))
    ensures r.Ok? ==> Guarded(inputs, service.immutability, service.binding) && Resumable(inputs, old(service.release))
    ensures r.Rejected? && !service.faulty ==>
      !(Guarded(inputs, service.immutability, service.binding) && Resumable(inputs, old(service.release)))
  {
    hide Injective, service.Valid, LocalsUnique, LocalNames, RemoteNames, NoneDiffers, AllPresent, NamesUnique,
         Exact, SafeAttempt, Interrupted, ReleaseOk, Succeeded;
    ghost var before := service.release;
    OpenedIsSafe(inputs, before, if before.Some? then before.value else FreshDraft(inputs));
    var failed := service.Fails();
    if failed || !service.immutability {
      return Rejected;
    }
    var binding := ValidateTagBinding(service, inputs, inputs.expectedObject);
    if binding.Rejected? {
      return Rejected;
    }
    var localNames := LocalNames(inputs.assets);
    var expectedNames := if inputs.allowed == {} then localNames else inputs.allowed;
    if !(localNames <= expectedNames) || (!inputs.draftOnly && expectedNames != localNames) {
      return Rejected;
    }
    var populated, uploaded, observed;
    ghost var base;
    populated, uploaded, observed, base := Populate(service, hash, inputs);
    if before.Some? {
      ResumableIsWorkable(inputs, before.value);
    }
    if populated.Rejected? {
      return Rejected;
    }
    NothingListed(inputs);
    var concluded := Conclude(service, hash, inputs, before, base, populated.value, observed, binding.value);
    if concluded.Rejected? {
      return Rejected;
    }
    r := Ok(ReconcileResult(uploaded, concluded.value));
  }

  lemma NothingListed(inputs: Inputs)
    ensures RemoteNames(FreshDraft(inputs).assets) == {}
  {
  }

  lemma ResumableIsWorkable(inputs: Inputs, rel: Release)
    requires LocalNames(inputs.assets) <= ExpectedNames(inputs)
    ensures Resumable(inputs, Some(rel)) ==> Workable(inputs, Some(rel))
    ensures Workable(inputs, Some(rel)) && (!rel.draft ==> rel.immutable && RemoteNames(rel.assets) == ExpectedNames(inputs)) ==>
      Resumable(inputs, Some(rel))
  {
    hide ExpectedNames, LocalNames, RemoteNames, ReleaseOk, NoneDiffers;
  }
}