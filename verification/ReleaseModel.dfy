/**
 * A GitHub release as the reconciler sees it, the release service as a mutable object whose operations may
 * fail before or after they take effect, and what every attempt at reconciling must respect.
 */
module ReleaseModel {
  import opened Prelude

  const MAXIMUM_ASSET_BYTES := 2 * 1024 * 1024 * 1024

  datatype Asset = Asset(name: string, bytes: seq<byte>)

  /** `uploaded` stands for the state "uploaded"; the digest is what the service advertises, if anything. */
  datatype RemoteAsset = RemoteAsset(
    name: string,
    id: int,
    uploaded: bool,
    size: int,
    digest: Option<string>,
    bytes: seq<byte>
  )

  datatype Release = Release(
    tag: string,
    title: string,
    prerelease: bool,
    draft: bool,
    immutable: bool,
    assets: seq<RemoteAsset>
  )

  datatype TagBinding = TagBinding(tag: string, tagObject: string, commit: string, message: string)

  datatype Inputs = Inputs(
    tag: string,
    title: string,
    prerelease: bool,
    assets: seq<Asset>,
    expectedCommit: string,
    expectedMessage: string,
    expectedObject: Option<string>,
    draftOnly: bool,
    allowed: set<string>
  )

  /** SHA-256 in hexadecimal, taken as injective. */
  datatype Hash = Hash(sha256: seq<byte> -> string)

  ghost predicate Injective(hash: Hash) {
    forall a: seq<byte>, b: seq<byte> :: hash.sha256(a) == hash.sha256(b) ==> a == b
  }

  function LocalNames(assets: seq<Asset>): set<string> {
    set i | 0 <= i < |assets| :: assets[i].name
  }

  function RemoteNames(assets: seq<RemoteAsset>): set<string> {
    set i | 0 <= i < |assets| :: assets[i].name
  }

  /** The names that may be on the release: an empty allowance means the local ones. */
  function ExpectedNames(inputs: Inputs): set<string> {
    if inputs.allowed == {} then LocalNames(inputs.assets) else inputs.allowed
  }

  predicate NamesUnique(assets: seq<RemoteAsset>) {
    forall i, j :: 0 <= i < j < |assets| ==> assets[i].name != assets[j].name
  }

  predicate LocalsUnique(assets: seq<Asset>) {
    forall i, j :: 0 <= i < j < |assets| ==> assets[i].name != assets[j].name
  }

  // ---------- What an attempt may do ----------

  /** The release metadata and every listed asset are as this run of the script wants them. */
  predicate ReleaseOk(inputs: Inputs, rel: Release, allowDraft: bool, requireImmutable: bool) {
    && rel.tag == inputs.tag && rel.title == inputs.title && rel.prerelease == inputs.prerelease
    && (rel.draft ==> allowDraft) && (requireImmutable ==> rel.immutable)
    && NamesUnique(rel.assets)
    && forall i :: 0 <= i < |rel.assets| ==>
         rel.assets[i].name in ExpectedNames(inputs) && rel.assets[i].uploaded && rel.assets[i].id > 0
  }

  predicate Same(local: Asset, remote: RemoteAsset) {
    remote.name == local.name && remote.bytes == local.bytes
  }

  /** No remote asset carries a local name with other bytes. */
  predicate NoneDiffers(assets: seq<Asset>, rel: Release) {
    forall i, j :: 0 <= i < |rel.assets| && 0 <= j < |assets| && rel.assets[i].name == assets[j].name ==>
      Same(assets[j], rel.assets[i])
  }

  predicate HasCopy(remotes: seq<RemoteAsset>, local: Asset) {
    exists i :: 0 <= i < |remotes| && Same(local, remotes[i])
  }

  predicate IsCopy(assets: seq<Asset>, remote: RemoteAsset) {
    exists j :: 0 <= j < |assets| && Same(assets[j], remote)
  }

  /** Every local asset is among the remote ones, byte for byte. */
  predicate AllPresent(assets: seq<Asset>, remotes: seq<RemoteAsset>) {
    forall j :: 0 <= j < |assets| ==> HasCopy(remotes, assets[j])
  }

  /** The remote assets are the local ones byte for byte, and nothing else. */
  predicate Exact(assets: seq<Asset>, remotes: seq<RemoteAsset>) {
    && NamesUnique(remotes) && AllPresent(assets, remotes)
    && forall i :: 0 <= i < |remotes| ==> IsCopy(assets, remotes[i])
  }

  /** Assets are only ever appended, a published release stays as it is, and only publication freezes a draft. */
  predicate Kept(before: Release, after: Release) {
    && after.tag == before.tag && after.title == before.title && after.prerelease == before.prerelease
    && before.assets <= after.assets
    && (!before.draft ==> after == before)
    && (after.draft ==> after.immutable == before.immutable)
  }

  /** The remote asset has a local name, and local bytes once the service reports it uploaded. */
  predicate IsLocal(assets: seq<Asset>, remote: RemoteAsset) {
    remote.id > 0 &&
    exists j :: 0 <= j < |assets| && remote.name == assets[j].name && (remote.uploaded ==> Same(assets[j], remote))
  }

  predicate AppendsLocal(assets: seq<Asset>, from: nat, rel: Release) {
    forall i :: from <= i < |rel.assets| ==> IsLocal(assets, rel.assets[i])
  }

  function Listed(r: Option<Release>): nat {
    if r.Some? then |r.value.assets| else 0
  }

  predicate Published(r: Option<Release>) {
    r.Some? && !r.value.draft
  }

  /** A release that an attempt creates carries the intended metadata. */
  predicate CreatedFor(inputs: Inputs, rel: Release) {
    rel.tag == inputs.tag && rel.title == inputs.title && rel.prerelease == inputs.prerelease
  }

  /** Publication happens only to the complete local set, byte for byte, and freezes it. */
  predicate PublishedFor(inputs: Inputs, rel: Release) {
    && !inputs.draftOnly && rel.immutable && Exact(inputs.assets, rel.assets)
    && ExpectedNames(inputs) == LocalNames(inputs.assets)
  }

  /** What every attempt, however it ends, leaves behind. */
  predicate SafeAttempt(inputs: Inputs, before: Option<Release>, after: Option<Release>) {
    && (before.Some? ==> after.Some? && Kept(before.value, after.value))
    && (before.None? && after.Some? ==> CreatedFor(inputs, after.value))
    && (after.Some? ==> AppendsLocal(inputs.assets, Listed(before), after.value))
    && (after.Some? && (before.Some? ==> NamesUnique(before.value.assets)) ==> NamesUnique(after.value.assets))
    && (before.Some? && !(ReleaseOk(inputs, before.value, true, false) && NoneDiffers(inputs.assets, before.value)) ==>
          after == before)
    && (Published(after) && !Published(before) ==> PublishedFor(inputs, after.value))
  }

  /** The conditions that do not depend on the release. */
  predicate Guarded(inputs: Inputs, immutability: bool, binding: TagBinding) {
    && immutability
    && binding.tag == inputs.tag && binding.commit == inputs.expectedCommit && binding.message == inputs.expectedMessage
    && (inputs.expectedObject.Some? ==> binding.tagObject == inputs.expectedObject.value)
    && LocalNames(inputs.assets) <= ExpectedNames(inputs)
    && (!inputs.draftOnly ==> ExpectedNames(inputs) == LocalNames(inputs.assets))
  }

  /** The releases from which an undisturbed attempt succeeds. */
  predicate Resumable(inputs: Inputs, r: Option<Release>) {
    r.Some? ==>
      && ReleaseOk(inputs, r.value, true, false) && NoneDiffers(inputs.assets, r.value)
      && (!r.value.draft ==> r.value.immutable && RemoteNames(r.value.assets) == ExpectedNames(inputs))
  }

  // ---------- The service ----------

  /** Advertised sizes and digests describe the bytes they stand for. */
  predicate Truthful(hash: Hash, a: RemoteAsset) {
    a.uploaded ==> a.size == |a.bytes| && a.digest in {None, Some(""), Some("sha256:" + hash.sha256(a.bytes))}
  }

  class Service {
    const faulty: bool
    const immutability: bool
    const binding: TagBinding
    var release: Option<Release>

    constructor (faulty: bool, immutability: bool, binding: TagBinding, release: Option<Release>)
      ensures this.faulty == faulty && this.immutability == immutability && this.binding == binding
      ensures this.release == release
    {
      this.faulty, this.immutability, this.binding, this.release := faulty, immutability, binding, release;
    }

    /** Identifiers name assets, and metadata describes them. */
    predicate Valid(hash: Hash)
      reads this
    {
      release.Some? ==>
        && (forall i, j :: 0 <= i < j < |release.value.assets| ==>
              release.value.assets[i].id != release.value.assets[j].id)
        && (forall i :: 0 <= i < |release.value.assets| ==> Truthful(hash, release.value.assets[i]))
    }

    /** Whether this call fails; only a faulty service fails. */
    method Fails() returns (failed: bool)
      ensures failed ==> faulty
    {
      failed := *;
      failed := failed && faulty;
    }

    method Lookup() returns (r: Result<Option<Release>>)
      ensures r.Ok? ==> r.value == release
      ensures r.Rejected? ==> faulty
    {
      var failed := Fails();
      return if failed then Rejected else Ok(release);
    }

    method LookupBinding() returns (r: Result<TagBinding>)
      ensures r.Ok? ==> r.value == binding
      ensures r.Rejected? ==> faulty
    {
      var failed := Fails();
      return if failed then Rejected else Ok(binding);
    }

    /** The bytes of a listed asset, by identifier. */
    method Download(ghost hash: Hash, id: int, ghost index: nat) returns (r: Result<seq<byte>>)
      requires Valid(hash) && release.Some? && index < |release.value.assets| && release.value.assets[index].id == id
      ensures r.Ok? ==> r.value == release.value.assets[index].bytes
      ensures r.Rejected? ==> faulty
    {
      var failed := Fails();
      if failed {
        return Rejected;
      }
      var i := 0;
      while release.value.assets[i].id != id
        invariant 0 <= i <= index
        decreases index - i
      {
        i := i + 1;
      }
      assert i == index;
      return Ok(release.value.assets[i].bytes);
    }

    /** Creates an empty draft; a failure may come before or after the effect. */
    method Create(ghost hash: Hash, tag: string, title: string, prerelease: bool) returns (ok: bool)
      requires release.None?
      modifies this
      ensures release == Some(Release(tag, title, prerelease, true, false, [])) || (!ok && release.None?)
      ensures !ok ==> faulty
      ensures Valid(hash)
    {
      var early := Fails();
      if early {
        return false;
      }
      release := Some(Release(tag, title, prerelease, true, false, []));
      var late := Fails();
      return !late;
    }

    /**
     * Adds an asset under a name that is not taken, and never replaces one. A failure may come before the
     * effect, after it, or leave an asset that is not fully uploaded.
     */
    method Upload(hash: Hash, name: string, bytes: seq<byte>) returns (ok: bool)
      requires Valid(hash) && release.Some?
      requires forall i :: 0 <= i < |release.value.assets| ==> release.value.assets[i].name != name
      modifies this
      ensures Valid(hash) && release.Some?
      ensures (!ok && release == old(release)) || UploadedTo(old(release).value, release.value, name, bytes, ok)
      ensures !ok ==> faulty
    {
      var early := Fails();
      if early {
        return false;
      }
      var partial := Fails();
      var id := FreshId(release.value.assets);
      var digest, advertised: bool := None, *;
      if advertised {
        digest := Some("sha256:" + hash.sha256(bytes));
      }
      var added := RemoteAsset(name, id, !partial, |bytes|, digest, if partial then [] else bytes);
      release := Some(release.value.(assets := release.value.assets + [added]));
      var late := Fails();
      return !partial && !late;
    }

    /** Publishes the release; the service freezes it when the repository says so. */
    method Finalize(ghost hash: Hash, prerelease: bool) returns (ok: bool)
      requires Valid(hash) && release.Some?
      modifies this
      ensures Valid(hash)
      ensures || release == Some(old(release).value.(draft := false, prerelease := prerelease, immutable := immutability))
              || (!ok && release == old(release))
      ensures !ok ==> faulty
    {
      var early := Fails();
      if early {
        return false;
      }
      release := Some(release.value.(draft := false, prerelease := prerelease, immutable := immutability));
      var late := Fails();
      return !late;
    }
  }

  /** The release after an upload under a new name, complete if the upload succeeded. */
  predicate UploadedTo(before: Release, after: Release, name: string, bytes: seq<byte>, ok: bool) {
    && |after.assets| == |before.assets| + 1 && after == before.(assets := before.assets + [after.assets[|before.assets|]])
    && var a := after.assets[|before.assets|];
       && a.name == name && a.id > 0 && (ok ==> a.uploaded) && (a.uploaded ==> a.bytes == bytes)
  }

  /** An identifier above all others. */
  function FreshId(assets: seq<RemoteAsset>): (id: int)
    ensures id > 0 && forall i :: 0 <= i < |assets| ==> assets[i].id < id
  {
    if assets == [] then 1
    else
      var front, last := assets[..|assets| - 1], assets[|assets| - 1];
      assert forall i :: 0 <= i < |front| ==> assets[i] == front[i];
      var id := FreshId(front);
      if last.id < id then id else last.id + 1
  }
}
