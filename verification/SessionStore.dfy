/**
 * The encrypted session store: three preference entries and a keystore key, under the namespace mutex.
 * The cipher and the JSON text format are parameters that undo themselves; everything between them is
 * the store's own.
 */
module SessionStore {
  import opened Prelude
  import Base64Url
  import Json

  // ---------- Snapshots ----------

  datatype Installation = Installation(id: string, platform: string, jkt: string, status: string)

  datatype Trust = Trust(provider: string, level: string, verifiedAt: string, expiresAt: string)

  datatype Snapshot = Snapshot(
    accessToken: string,
    refreshToken: string,
    accessExpiresAt: int,
    refreshExpiresAt: int,
    installation: Installation,
    trust: Trust
  )

  const PLATFORMS := {"android", "react_native_android"}

  predicate IsIdChar(c: char) {
    'A' <= c <= 'Z' || 'a' <= c <= 'z' || '0' <= c <= '9' || c == '_' || c == '-'
  }

  predicate IsInstallationId(id: string) {
    20 <= |id| <= 132 && id[..4] == "ins_" && forall i :: 4 <= i < |id| ==> IsIdChar(id[i])
  }

  /** What the constructors of a snapshot and its secrets demand. */
  predicate SnapshotOk(s: Snapshot) {
    && s.accessToken != "" && s.refreshToken != ""
    && 0 < s.accessExpiresAt < s.refreshExpiresAt
    && IsInstallationId(s.installation.id) && s.installation.platform in PLATFORMS
    && Base64Url.Decode(s.installation.jkt).Some? && |Base64Url.Decode(s.installation.jkt).value| == 32
  }

  // ---------- Documents ----------

  function EncodeInstallation(i: Installation): seq<Json.Member> {
    [Json.Member("id", Json.Text(i.id)), Json.Member("platform", Json.Text(i.platform)),
     Json.Member("dpop_jkt", Json.Text(i.jkt)), Json.Member("status", Json.Text(i.status))]
  }

  function EncodeTrust(t: Trust): seq<Json.Member> {
    [Json.Member("provider", Json.Text(t.provider)), Json.Member("level", Json.Text(t.level)),
     Json.Member("verified_at", Json.Text(t.verifiedAt)), Json.Member("expires_at", Json.Text(t.expiresAt))]
  }

  function EncodeSnapshot(s: Snapshot): seq<Json.Member> {
    [Json.Member("version", Json.Number(1)),
     Json.Member("access_token", Json.Text(s.accessToken)), Json.Member("refresh_token", Json.Text(s.refreshToken)),
     Json.Member("access_expires_at", Json.Number(s.accessExpiresAt)),
     Json.Member("refresh_expires_at", Json.Number(s.refreshExpiresAt)),
     Json.Member("installation", Json.Object(EncodeInstallation(s.installation))),
     Json.Member("trust", Json.Object(EncodeTrust(s.trust)))]
  }

  function DecodeInstallation(m: seq<Json.Member>): Option<Installation> {
    var id, platform := Json.GetText(m, "id"), Json.GetText(m, "platform");
    var jkt, status := Json.GetText(m, "dpop_jkt"), Json.GetText(m, "status");
    if id.None? || platform.None? || jkt.None? || status.None? then None
    else Some(Installation(id.value, platform.value, jkt.value, status.value))
  }

  function DecodeTrust(m: seq<Json.Member>): Option<Trust> {
    var provider, level := Json.GetText(m, "provider"), Json.GetText(m, "level");
    var verifiedAt, expiresAt := Json.GetText(m, "verified_at"), Json.GetText(m, "expires_at");
    if provider.None? || level.None? || verifiedAt.None? || expiresAt.None? then None
    else Some(Trust(provider.value, level.value, verifiedAt.value, expiresAt.value))
  }

  /** A snapshot, if every member is there and the constructors accept it. */
  function DecodeSnapshot(m: seq<Json.Member>): Option<Snapshot> {
    var access, refresh := Json.GetText(m, "access_token"), Json.GetText(m, "refresh_token");
    var accessExpiry, refreshExpiry := Json.GetNumber(m, "access_expires_at"), Json.GetNumber(m, "refresh_expires_at");
    var installation, trust := Json.GetObject(m, "installation"), Json.GetObject(m, "trust");
    if Json.GetNumber(m, "version") != Some(1) || access.None? || refresh.None? || accessExpiry.None?
       || refreshExpiry.None? || installation.None? || trust.None? then None
    else
      var i, t := DecodeInstallation(installation.value), DecodeTrust(trust.value);
      if i.None? || t.None? then None
      else
        var s := Snapshot(access.value, refresh.value, accessExpiry.value, refreshExpiry.value, i.value, t.value);
        if SnapshotOk(s) then Some(s) else None
  }

  lemma InstallationInverse(i: Installation)
    ensures DecodeInstallation(EncodeInstallation(i)) == Some(i)
  {
    hide Json.Lookup;
    var m := EncodeInstallation(i);
    Json.LookupAt(m, 0);
    Json.LookupAt(m, 1);
    Json.LookupAt(m, 2);
    Json.LookupAt(m, 3);
  }

  lemma TrustInverse(t: Trust)
    ensures DecodeTrust(EncodeTrust(t)) == Some(t)
  {
    hide Json.Lookup;
    var m := EncodeTrust(t);
    Json.LookupAt(m, 0);
    Json.LookupAt(m, 1);
    Json.LookupAt(m, 2);
    Json.LookupAt(m, 3);
  }

  /** Every snapshot that can exist survives its document; nothing else is ever read back. */
  lemma SnapshotInverse(s: Snapshot)
    ensures DecodeSnapshot(EncodeSnapshot(s)) == if SnapshotOk(s) then Some(s) else None
  {
    hide Json.Lookup, EncodeInstallation, EncodeTrust, DecodeInstallation, DecodeTrust, SnapshotOk;
    var m := EncodeSnapshot(s);
    Json.LookupAt(m, 0);
    Json.LookupAt(m, 1);
    Json.LookupAt(m, 2);
    Json.LookupAt(m, 3);
    Json.LookupAt(m, 4);
    Json.LookupAt(m, 5);
    Json.LookupAt(m, 6);
    InstallationInverse(s.installation);
    TrustInverse(s.trust);
  }

  // ---------- The store ----------

  type bytes = seq<byte>

  /** AES-GCM, the JSON text format and the digest of access tokens; keys are numbered. */
  datatype Tools = Tools(
    fingerprint: string -> string,
    encrypt: (nat, bytes, bytes) -> bytes,
    decrypt: (nat, bytes, bytes) -> Option<bytes>,
    render: seq<Json.Member> -> bytes,
    parse: bytes -> Option<seq<Json.Member>>
  )

  /** Decryption under the same key and vector undoes encryption, and parsing undoes rendering. */
  ghost predicate Sound(tools: Tools) {
    && (forall key: nat, iv: bytes, text: bytes :: tools.decrypt(key, iv, tools.encrypt(key, iv, text)) == Some(text))
    && (forall m: seq<Json.Member> :: tools.parse(tools.render(m)) == Some(m))
  }

  /** What the preferences mean. */
  datatype Contents = Nothing | Holds(snapshot: Snapshot) | Corrupt

  /** How a commit of the preferences ends; one that reports failure may still have been applied. */
  datatype Commit = Committed | ReportedLost | NotApplied

  /** What goes wrong during one operation. */
  datatype Faults = Faults(keyThrows: bool, cipherThrows: bool, commit: Commit)

  predicate Throws(f: Faults) {
    f.keyThrows || f.cipherThrows
  }

  /** The contents after an attempt to empty the preferences. */
  function Wiped(was: Contents, commit: Commit): Contents {
    if commit.NotApplied? then was else Nothing
  }

  /** A load fails on corrupt entries, and on intact ones when a keystore or cipher call throws. */
  predicate Unreadable(was: Contents, f: Faults) {
    was.Corrupt? || (was.Holds? && Throws(f))
  }

  /** A failing load wipes the store, without telling corrupt entries from a call that threw. */
  function AfterLoad(was: Contents, f: Faults): Contents {
    if Unreadable(was, f) then Wiped(was, f.commit) else was
  }

  function Loaded(was: Contents, f: Faults): Result<Option<Snapshot>> {
    if Unreadable(was, f) then Rejected
    else Ok(if was.Holds? then Some(was.snapshot) else None)
  }

  /** Which snapshot a conditional clear may remove: any of an identity, or one generation of it. */
  datatype Target = Target(jkt: string, fingerprint: Option<string>)

  predicate Hits(was: Contents, target: Target, fingerprint: string -> string) {
    && was.Holds? && was.snapshot.installation.jkt == target.jkt
    && (target.fingerprint.Some? ==> fingerprint(was.snapshot.accessToken) == target.fingerprint.value)
  }

  function AfterClear(was: Contents, target: Target, fingerprint: string -> string, f: Faults): Contents {
    if Unreadable(was, f) || Hits(was, target, fingerprint) then Wiped(was, f.commit) else was
  }

  predicate ClearSucceeds(was: Contents, target: Target, fingerprint: string -> string, f: Faults) {
    !Unreadable(was, f) && (Hits(was, target, fingerprint) ==> f.commit.Committed?)
  }

  // ---------- What a conditional clear may remove ----------

  /** The contents stay, or they were the target and are gone. */
  predicate Exact(was: Contents, target: Target, fingerprint: string -> string, now: Contents) {
    now == was || (now == Nothing && Hits(was, target, fingerprint))
  }

  /** Keystore and cipher calls throw only if `fragile`, and commits fail only if `flaky`. */
  predicate Possible(fragile: bool, flaky: bool, f: Faults) {
    (Throws(f) ==> fragile) && (!f.commit.Committed? ==> flaky)
  }

  /** One throwing key lookup in the middle of a conditional clear destroys the intact snapshot of another. */
  lemma IntactSnapshotIsWiped(s: Snapshot, target: Target, fingerprint: string -> string)
    requires !Hits(Holds(s), target, fingerprint)
    ensures !Exact(Holds(s), target, fingerprint,
                   AfterClear(Holds(s), target, fingerprint, Faults(true, false, Committed)))
  {
  }

  /** A snapshot that a conditional clear does not name is safe from it exactly when those calls never throw. */
  lemma ForeignSafeIff(s: Snapshot, target: Target, fingerprint: string -> string, fragile: bool, flaky: bool)
    requires !Hits(Holds(s), target, fingerprint)
    ensures (forall f :: Possible(fragile, flaky, f) ==>
               Exact(Holds(s), target, fingerprint, AfterClear(Holds(s), target, fingerprint, f)))
            <==> !fragile
  {
    if fragile {
      IntactSnapshotIsWiped(s, target, fingerprint);
      assert Possible(fragile, flaky, Faults(true, false, Committed));
    }
  }

  /** An operation that writes no snapshot: a load without a target, a conditional clear with one. */
  datatype Operation = Operation(target: Option<Target>, faults: Faults)

  function AfterAll(was: Contents, fingerprint: string -> string, ops: seq<Operation>): Contents {
    if ops == [] then was
    else
      var before := AfterAll(was, fingerprint, ops[..|ops| - 1]);
      var op := ops[|ops| - 1];
      if op.target.None? then AfterLoad(before, op.faults)
      else AfterClear(before, op.target.value, fingerprint, op.faults)
  }

  /** An operation that takes the snapshot along, because it names it or because it could not read it. */
  predicate Removes(s: Snapshot, fingerprint: string -> string, op: Operation) {
    && (Throws(op.faults) || (op.target.Some? && Hits(Holds(s), op.target.value, fingerprint)))
    && !op.faults.commit.NotApplied?
  }

  /** Over any run of loads and conditional clears a snapshot survives exactly if no operation removes it. */
  lemma {:induction false} SurvivesIff(s: Snapshot, fingerprint: string -> string, ops: seq<Operation>)
    ensures AfterAll(Holds(s), fingerprint, ops) ==
            if exists i :: 0 <= i < |ops| && Removes(s, fingerprint, ops[i]) then Nothing else Holds(s)
  {
    if ops != [] {
      var shorter := ops[..|ops| - 1];
      SurvivesIff(s, fingerprint, shorter);
      assert forall i :: 0 <= i < |shorter| ==> shorter[i] == ops[i];
    }
  }

  /** The store over preferences and a keystore. */
  class AndroidEncryptedSessionStateStore {
    const tools: Tools
    var version: Option<string>
    var iv: Option<string>
    var ciphertext: Option<string>
    var key: Option<nat>
    var unusedKey: nat

    constructor (tools: Tools)
      ensures this.tools == tools && Meaning() == Nothing
    {
      this.tools := tools;
      version, iv, ciphertext, key, unusedKey := None, None, None, None, 0;
    }

    /** The plaintext under the key that a lookup finds or generates, if every entry is in order. */
    function Plaintext(): Option<bytes>
      reads this
    {
      if ciphertext.None? || iv.None? || version != Some("1") then None
      else
        var vector, sealed := Base64Url.Decode(iv.value), Base64Url.Decode(ciphertext.value);
        if vector.None? || |vector.value| != 12 || sealed.None? then None
        else tools.decrypt(if key.Some? then key.value else unusedKey, vector.value, sealed.value)
    }

    function Meaning(): Contents
      reads this
    {
      if ciphertext.None? then Nothing
      else if Plaintext().None? || tools.parse(Plaintext().value).None?
              || DecodeSnapshot(tools.parse(Plaintext().value).value).None? then Corrupt
      else Holds(DecodeSnapshot(tools.parse(Plaintext().value).value).value)
    }

    /** Finds or generates the key. */
    method EncryptionKey(f: Faults) returns (r: Option<nat>)
      modifies this`key, this`unusedKey
      ensures r == if f.keyThrows then None else Some(if old(key).Some? then old(key).value else old(unusedKey))
      ensures r.Some? ==> key == r
      ensures Plaintext() == old(Plaintext())
    {
      if f.keyThrows {
        return None;
      }
      if key.None? {
        key, unusedKey := Some(unusedKey), unusedKey + 1;
      }
      return key;
    }

    method ClearLocked(f: Faults) returns (ok: bool)
      modifies this`version, this`iv, this`ciphertext
      ensures Meaning() == Wiped(old(Meaning()), f.commit)
      ensures ok == f.commit.Committed?
    {
      ok := f.commit.Committed?;
      if !f.commit.NotApplied? {
        version, iv, ciphertext := None, None, None;
      }
    }

    /** What is stored; whatever cannot be read is removed and reported. */
    method LoadLocked(f: Faults) returns (r: Result<Option<Snapshot>>)
      modifies this
      ensures r == Loaded(old(Meaning()), f)
      ensures Meaning() == AfterLoad(old(Meaning()), f)
    {
      if ciphertext.None? {
        return Ok(None);
      }
      if iv.None? || version != Some("1") {
        var _ := ClearLocked(f);
        return Rejected;
      }
      var found := EncryptionKey(f);
      if found.None? {
        var _ := ClearLocked(f);
        return Rejected;
      }
      var vector, sealed := Base64Url.Decode(iv.value), Base64Url.Decode(ciphertext.value);
      if vector.None? || |vector.value| != 12 || sealed.None? || f.cipherThrows {
        var _ := ClearLocked(f);
        return Rejected;
      }
      var text := tools.decrypt(found.value, vector.value, sealed.value);
      if text.None? || tools.parse(text.value).None? || DecodeSnapshot(tools.parse(text.value).value).None? {
        var _ := ClearLocked(f);
        return Rejected;
      }
      return Ok(Some(DecodeSnapshot(tools.parse(text.value).value).value));
    }

    method Load(f: Faults) returns (r: Result<Option<Snapshot>>)
      modifies this
      ensures r == Loaded(old(Meaning()), f)
      ensures Meaning() == AfterLoad(old(Meaning()), f)
    {
      r := LoadLocked(f);
    }

    /** A save stores exactly the snapshot, or leaves what was there. */
    method Save(snapshot: Snapshot, vector: bytes, f: Faults) returns (ok: bool)
      requires Sound(tools) && SnapshotOk(snapshot) && |vector| == 12
      modifies this
      ensures ok <==> !Throws(f) && f.commit.Committed?
      ensures Meaning() == if Throws(f) || f.commit.NotApplied? then old(Meaning()) else Holds(snapshot)
    {
      hide EncodeSnapshot, DecodeSnapshot, SnapshotOk, Base64Url.Encode, Base64Url.Decode;
      var found := EncryptionKey(f);
      if found.None? || f.cipherThrows {
        return false;
      }
      var text := tools.render(EncodeSnapshot(snapshot));
      var sealed := tools.encrypt(found.value, vector, text);
      ok := f.commit.Committed?;
      if !f.commit.NotApplied? {
        version, iv, ciphertext := Some("1"), Some(Base64Url.Encode(vector)), Some(Base64Url.Encode(sealed));
        Base64Url.DecodeEncode(vector);
        Base64Url.DecodeEncode(sealed);
        SnapshotInverse(snapshot);
      }
    }

    method Clear(f: Faults) returns (ok: bool)
      modifies this
      ensures ok == f.commit.Committed?
      ensures Meaning() == Wiped(old(Meaning()), f.commit)
    {
      ok := ClearLocked(f);
    }

    /** Removes a snapshot of the given identity. */
    method ClearIfInstallation(expectedJkt: string, f: Faults) returns (ok: bool)
      modifies this
      ensures ok == ClearSucceeds(old(Meaning()), Target(expectedJkt, None), tools.fingerprint, f)
      ensures Meaning() == AfterClear(old(Meaning()), Target(expectedJkt, None), tools.fingerprint, f)
    {
      var stored := LoadLocked(f);
      if stored.Rejected? {
        return false;
      }
      ok := true;
      if stored.value.Some? && stored.value.value.installation.jkt == expectedJkt {
        ok := ClearLocked(f);
      }
    }

    /** Removes the named generation of the given identity. */
    method ClearIfSession(expectedJkt: string, expectedFingerprint: string, f: Faults) returns (ok: bool)
      modifies this
      ensures var target := Target(expectedJkt, Some(expectedFingerprint));
        && ok == ClearSucceeds(old(Meaning()), target, tools.fingerprint, f)
        && Meaning() == AfterClear(old(Meaning()), target, tools.fingerprint, f)
    {
      var stored := LoadLocked(f);
      if stored.Rejected? {
        return false;
      }
      ok := true;
      if stored.value.Some? && stored.value.value.installation.jkt == expectedJkt
         && tools.fingerprint(stored.value.value.accessToken) == expectedFingerprint {
        ok := ClearLocked(f);
      }
    }
  }
}
