/**
  The manifest file and the archive envelope as text. Both readers are strict: exact field sets, no
  repeated field, canonical keys and paths, well-formed digests.
*/
module ManifestCodec {
  import opened Prelude
  import opened Json
  import opened ArtifactKeys
  import opened ManifestStore
  import TextOrder
  import Utf8

  /** The text operations that rest on Unicode tables: name comparison, case folding, path identity. */
  datatype Tables = Tables(nameKey: string -> string, fold: string -> string, identity: string -> string)

  const HASH_ALGORITHM := "sha256-v1"
  const MANIFEST_SCHEMA_VERSION := 1
  const ARCHIVE_SCHEMA_VERSION := 2

  // -------------------------------------------------------------- field checks

  predicate IsLowerHex(s: string) {
    forall i :: 0 <= i < |s| ==> '0' <= s[i] <= '9' || 'a' <= s[i] <= 'f'
  }

  predicate IsContentDigest(s: string) {
    |s| == 64 && IsLowerHex(s)
  }

  predicate IsPrefixedDigest(s: string) {
    |s| == 74 && s[..10] == "sha256-v1:" && IsContentDigest(s[10..])
  }

  /** The parts between slashes. */
  function Parts(path: string): (parts: seq<string>)
    ensures parts != []
  {
    if path == "" then [""]
    else
      var rest := Parts(path[1..]);
      if path[0] == '/' then [""] + rest else [[path[0]] + rest[0]] + rest[1..]
  }

  predicate IsPlainPart(part: string) {
    && part != "" && part != "." && part != ".."
    && part[|part| - 1] != ' ' && part[|part| - 1] != '.'
    && ':' !in part
  }

  const MANIFEST_FILENAME := ".arcreel_artifacts.json"
  const LOCK_FILENAME := ".artifact_manifest.lock"

  /** The paths that `normalize_artifact_path` returns unchanged. */
  predicate IsCanonicalPath(tables: Tables, path: string) {
    && path != "" && '\0' !in path && '\\' !in path
    && (forall i :: 0 <= i < |Parts(path)| ==> IsPlainPart(Parts(path)[i]))
    && path != MANIFEST_FILENAME && path != LOCK_FILENAME
    && (|Parts(path)| == 1 ==>
        tables.fold(path) != tables.fold(MANIFEST_FILENAME) && tables.fold(path) != tables.fold(LOCK_FILENAME))
  }

  predicate IsGoodClaim(tables: Tables, claim: Claim) {
    IsCanonicalPath(tables, claim.path) && IsPrefixedDigest(claim.digest)
  }

  predicate Admits(tables: Tables, key: string, claim: Claim) {
    Decode(tables.nameKey, key).Some? && IsGoodClaim(tables, claim)
  }

  // ------------------------------------------------------------------- objects

  predicate NoRepeatedField(fields: seq<(string, Json)>) {
    forall i, j :: 0 <= i < j < |fields| ==> fields[i].0 != fields[j].0
  }

  /** No object anywhere in the value repeats a field. */
  predicate Unrepeated(j: Json) {
    match j
    case Array(items) => forall i :: 0 <= i < |items| ==> Unrepeated(items[i])
    case Object(fields) => NoRepeatedField(fields) && forall i :: 0 <= i < |fields| ==> Unrepeated(fields[i].1)
    case _ => true
  }

  function Field(fields: seq<(string, Json)>, name: string): (r: Option<Json>)
    ensures r.None? <==> forall i :: 0 <= i < |fields| ==> fields[i].0 != name
  {
    if fields == [] then None
    else if fields[0].0 == name then Some(fields[0].1)
    else
      assert forall i :: 0 < i < |fields| ==> fields[i] == fields[1..][i - 1];
      Field(fields[1..], name)
  }

  lemma {:induction false} FieldAt(fields: seq<(string, Json)>, i: nat)
    requires NoRepeatedField(fields) && i < |fields|
    ensures Field(fields, fields[i].0) == Some(fields[i].1)
  {
    if i > 0 {
      FieldAt(fields[1..], i - 1);
    }
  }

  /** The field set is exactly these names. */
  predicate HasExactly(fields: seq<(string, Json)>, names: set<string>) {
    (set i | 0 <= i < |fields| :: fields[i].0) == names
  }

  lemma TwoFields(fields: seq<(string, Json)>)
    requires |fields| == 2 && fields[0].0 != fields[1].0
    ensures HasExactly(fields, {fields[0].0, fields[1].0})
    ensures Field(fields, fields[0].0) == Some(fields[0].1) && Field(fields, fields[1].0) == Some(fields[1].1)
  {
    FieldAt(fields, 0);
    FieldAt(fields, 1);
    var names := set i | 0 <= i < |fields| :: fields[i].0;
    assert fields[0].0 in names && fields[1].0 in names;
  }

  lemma ThreeFields(fields: seq<(string, Json)>)
    requires |fields| == 3 && NoRepeatedField(fields)
    ensures HasExactly(fields, {fields[0].0, fields[1].0, fields[2].0})
    ensures Field(fields, fields[0].0) == Some(fields[0].1)
    ensures Field(fields, fields[1].0) == Some(fields[1].1)
    ensures Field(fields, fields[2].0) == Some(fields[2].1)
  {
    FieldAt(fields, 0);
    FieldAt(fields, 1);
    FieldAt(fields, 2);
    var names := set i | 0 <= i < |fields| :: fields[i].0;
    assert fields[0].0 in names && fields[1].0 in names && fields[2].0 in names;
  }

  // ------------------------------------------------------------------ manifest

  function ClaimJson(claim: Claim): Json {
    Object([("artifact_path", Str(claim.path)), ("basis_digest", Str(claim.digest))])
  }

  function EntryFields(claims: Claims, keys: seq<string>): seq<(string, Json)>
    requires forall i :: 0 <= i < |keys| ==> keys[i] in claims
  {
    seq(|keys|, i requires 0 <= i < |keys| => (keys[i], ClaimJson(claims[keys[i]])))
  }

  function Envelope(entries: seq<(string, Json)>, version: int): Json {
    Object([("entries", Object(entries)), ("hash_algorithm", Str(HASH_ALGORITHM)), ("schema_version", Int(version))])
  }

  function Serialize(claims: Claims): seq<Byte> {
    var entries := EntryFields(claims, TextOrder.Sorted(claims.Keys));
    Utf8.Encode(Print(INDENTED, Envelope(entries, MANIFEST_SCHEMA_VERSION), 0) + "\n")
  }

  /** The entries of an envelope of the given version. */
  function OpenEnvelope(j: Json, version: int): Option<seq<(string, Json)>> {
    if !Unrepeated(j) || !j.Object? || !HasExactly(j.fields, {"entries", "hash_algorithm", "schema_version"}) then None
    else if Field(j.fields, "schema_version") != Some(Int(version)) then None
    else if Field(j.fields, "hash_algorithm") != Some(Str(HASH_ALGORITHM)) then None
    else
      var entries := Field(j.fields, "entries");
      if entries.Some? && entries.value.Object? then Some(entries.value.fields) else None
  }

  function ParseClaim(tables: Tables, j: Json): Option<Claim> {
    if !j.Object? || !HasExactly(j.fields, {"artifact_path", "basis_digest"}) then None
    else
      var path, digest := Field(j.fields, "artifact_path"), Field(j.fields, "basis_digest");
      if path.Some? && path.value.Str? && digest.Some? && digest.value.Str?
          && IsGoodClaim(tables, Claim(path.value.s, digest.value.s))
      then Some(Claim(path.value.s, digest.value.s))
      else None
  }

  function ParseEntries(tables: Tables, entries: seq<(string, Json)>): Option<Claims> {
    if entries == [] then Some(map[])
    else
      var n := |entries| - 1;
      var earlier, claim := ParseEntries(tables, entries[..n]), ParseClaim(tables, entries[n].1);
      if earlier.None? || Decode(tables.nameKey, entries[n].0).None? || claim.None? then None
      else Some(earlier.value[entries[n].0 := claim.value])
  }

  function ParseManifest(tables: Tables, raw: seq<Byte>): Option<Claims> {
    var text := Utf8.Decode(raw);
    if text.None? then None
    else
      var j := Parse(text.value);
      if j.None? then None
      else
        var entries := OpenEnvelope(j.value, MANIFEST_SCHEMA_VERSION);
        if entries.None? then None else ParseEntries(tables, entries.value)
  }

  lemma EnvelopeOpens(entries: seq<(string, Json)>, version: int)
    requires Unrepeated(Object(entries))
    ensures OpenEnvelope(Envelope(entries, version), version) == Some(entries)
  {
    hide HasExactly, Field;
    var fields := Envelope(entries, version).fields;
    ThreeFields(fields);
    assert Unrepeated(fields[0].1) && Unrepeated(fields[1].1) && Unrepeated(fields[2].1);
    assert Unrepeated(Envelope(entries, version));
  }

  lemma ClaimRoundTrip(tables: Tables, claim: Claim)
    requires IsGoodClaim(tables, claim)
    ensures ParseClaim(tables, ClaimJson(claim)) == Some(claim) && Unrepeated(ClaimJson(claim))
  {
    hide IsGoodClaim, HasExactly, Field;
    TwoFields(ClaimJson(claim).fields);
  }

  lemma {:induction false} EntriesRoundTrip(tables: Tables, claims: Claims, keys: seq<string>)
    requires forall i :: 0 <= i < |keys| ==> keys[i] in claims && Admits(tables, keys[i], claims[keys[i]])
    ensures ParseEntries(tables, EntryFields(claims, keys)) == Some(map key | key in keys :: claims[key])
  {
    hide ParseClaim, ClaimJson, IsGoodClaim, ArtifactKeys.Decode;
    var entries := EntryFields(claims, keys);
    if keys != [] {
      var n := |keys| - 1;
      EntriesRoundTrip(tables, claims, keys[..n]);
      assert entries[..n] == EntryFields(claims, keys[..n]);
      assert entries[n] == (keys[n], ClaimJson(claims[keys[n]]));
      assert Admits(tables, keys[n], claims[keys[n]]);
      ClaimRoundTrip(tables, claims[keys[n]]);
      assert keys == keys[..n] + [keys[n]];
      assert (map key | key in keys :: claims[key])
          == (map key | key in keys[..n] :: claims[key])[keys[n] := claims[keys[n]]];
    }
  }

  /** Reading what was written gives back the claims, whatever their number and names. */
  lemma ManifestRoundTrip(tables: Tables, claims: Claims)
    requires forall key :: key in claims ==> Admits(tables, key, claims[key])
    ensures ParseManifest(tables, Serialize(claims)) == Some(claims)
  {
    hide Print, Parse, Admits, ParseEntries, OpenEnvelope, Envelope;
    var keys := TextOrder.Sorted(claims.Keys);
    var entries := EntryFields(claims, keys);
    var j := Envelope(entries, MANIFEST_SCHEMA_VERSION);
    var text := Print(INDENTED, j, 0) + "\n";
    Utf8.RoundTrip(text);
    RoundTrip(INDENTED, j, "\n");
    EntriesAreUnrepeated(tables, claims, keys);
    EnvelopeOpens(entries, MANIFEST_SCHEMA_VERSION);
    EntriesRoundTrip(tables, claims, keys);
    assert (map key | key in keys :: claims[key]) == claims;
  }

  lemma EntriesAreUnrepeated(tables: Tables, claims: Claims, keys: seq<string>)
    requires forall i :: 0 <= i < |keys| ==> keys[i] in claims && Admits(tables, keys[i], claims[keys[i]])
    requires forall i, j :: 0 <= i < j < |keys| ==> keys[i] != keys[j]
    ensures Unrepeated(Object(EntryFields(claims, keys)))
  {
    hide IsGoodClaim, ArtifactKeys.Decode, ClaimJson, ParseClaim;
    var entries := EntryFields(claims, keys);
    forall i | 0 <= i < |entries| ensures Unrepeated(entries[i].1) {
      assert Admits(tables, keys[i], claims[keys[i]]);
      ClaimRoundTrip(tables, claims[keys[i]]);
    }
  }

  lemma {:induction false} ParsedEntriesAreAdmitted(tables: Tables, entries: seq<(string, Json)>)
    requires ParseEntries(tables, entries).Some?
    ensures var claims := ParseEntries(tables, entries).value;
            forall key :: key in claims ==> Admits(tables, key, claims[key])
  {
    hide IsGoodClaim, ArtifactKeys.Decode;
    if entries != [] {
      ParsedEntriesAreAdmitted(tables, entries[..|entries| - 1]);
    }
  }

  function ManifestTextCodec(tables: Tables): Codec {
    Codec(Serialize, raw => ParseManifest(tables, raw), (key, claim) => Admits(tables, key, claim))
  }

  /** The manifest's text obeys the laws the sidecar adapter rests on. */
  lemma ManifestTextIsLawful(tables: Tables)
    ensures Lawful(tables.identity, ManifestTextCodec(tables))
  {
    hide Serialize, Admits, ParseEntries;
    var codec := ManifestTextCodec(tables);
    forall claims | Admissible(codec, claims) && UniquePaths(tables.identity, claims)
      ensures codec.parse(codec.serialize(claims)) == Some(claims)
    {
      assert forall key :: key in claims ==> codec.admits(key, claims[key]);
      ManifestRoundTrip(tables, claims);
    }
    forall raw | codec.parse(raw).Some? ensures Admissible(codec, codec.parse(raw).value) {
      var entries := OpenEnvelope(Parse(Utf8.Decode(raw).value).value, MANIFEST_SCHEMA_VERSION).value;
      ParsedEntriesAreAdmitted(tables, entries);
    }
  }

  /** Any sequence of admissible calls on the real file format keeps the in-memory claims. */
  lemma ManifestFileFollowsMemory(tables: Tables, calls: seq<Call>)
    requires forall i :: 0 <= i < |calls| ==> AdmissibleCall(ManifestTextCodec(tables), calls[i])
    ensures Loaded(tables.identity, ManifestTextCodec(tables),
        FileRun(tables.identity, ManifestTextCodec(tables), calls))
            == Some(MemoryRun(tables.identity, calls))
  {
    ManifestTextIsLawful(tables);
    FileRunFollowsMemoryRun(tables.identity, ManifestTextCodec(tables), calls);
  }

  // ------------------------------------------------------------------- archive

  /** Portable claims with the digests of the exported bytes. */
  datatype Snapshot = Snapshot(entries: map<Key, Claim>, digests: map<Key, string>)

  ghost predicate GoodSnapshot(tables: Tables, s: Snapshot) {
    && s.entries.Keys == s.digests.Keys
    && forall k :: k in s.entries ==>
         Valid(tables.nameKey, k) && IsGoodClaim(tables, s.entries[k]) && IsContentDigest(s.digests[k])
  }

  function ArchivedJson(claim: Claim, digest: string): Json {
    Object([("artifact_path", Str(claim.path)), ("basis_digest", Str(claim.digest)), ("content_digest", Str(digest))])
  }

  /** Fields by encoded key; each text stands for the one key it encodes. */
  ghost function ArchiveFields(tables: Tables, s: Snapshot, texts: seq<string>): seq<(string, Json)>
    requires forall i :: 0 <= i < |texts| ==> Decode(tables.nameKey, texts[i]).Some?
    requires forall i :: 0 <= i < |texts| ==> Decode(tables.nameKey, texts[i]).value in s.entries
    requires s.entries.Keys == s.digests.Keys
  {
    seq(|texts|, i requires 0 <= i < |texts| =>
      var k := Decode(tables.nameKey, texts[i]).value;
      (texts[i], ArchivedJson(s.entries[k], s.digests[k])))
  }

  ghost function Texts(s: Snapshot): set<string> {
    set k | k in s.entries :: Encode(k)
  }

  lemma TextsDecode(tables: Tables, s: Snapshot)
    requires GoodSnapshot(tables, s)
    ensures forall text :: text in Texts(s) ==>
              Decode(tables.nameKey, text).Some? && Decode(tables.nameKey, text).value in s.entries
    ensures forall k :: k in s.entries ==> Encode(k) in Texts(s) && Decode(tables.nameKey, Encode(k)) == Some(k)
  {
    hide ArtifactKeys.Encode, ArtifactKeys.Decode, IsGoodClaim, IsContentDigest;
    forall k | k in s.entries ensures Decode(tables.nameKey, Encode(k)) == Some(k) {
      DecodeOfEncode(tables.nameKey, k);
    }
  }

  /** `None` where the encoder raises. */
  ghost function EncodeArchive(tables: Tables, s: Snapshot): Option<Json> {
    if !GoodSnapshot(tables, s) then None
    else
      TextsDecode(tables, s);
      Some(Envelope(ArchiveFields(tables, s, TextOrder.Sorted(Texts(s))), ARCHIVE_SCHEMA_VERSION))
  }

  function ParseArchived(tables: Tables, j: Json): Option<(Claim, string)> {
    if !j.Object? || !HasExactly(j.fields, {"artifact_path", "basis_digest", "content_digest"}) then None
    else
      var path, basis, content :=
        Field(j.fields, "artifact_path"), Field(j.fields, "basis_digest"), Field(j.fields, "content_digest");
      if path.Some? && path.value.Str? && basis.Some? && basis.value.Str? && content.Some? && content.value.Str?
         && IsGoodClaim(tables, Claim(path.value.s, basis.value.s)) && IsContentDigest(content.value.s)
      then Some((Claim(path.value.s, basis.value.s), content.value.s))
      else None
  }

  function ParseArchive(tables: Tables, fields: seq<(string, Json)>): Option<Snapshot> {
    if fields == [] then Some(Snapshot(map[], map[]))
    else
      var n := |fields| - 1;
      var earlier, key, item :=
        ParseArchive(tables, fields[..n]), Decode(tables.nameKey, fields[n].0), ParseArchived(tables, fields[n].1);
      if earlier.None? || key.None? || item.None? then None
      else Some(Snapshot(earlier.value.entries[key.value := item.value.0],
          earlier.value.digests[key.value := item.value.1]))
  }

  ghost predicate UniqueSnapshotPaths(tables: Tables, s: Snapshot) {
    forall a, b | a in s.entries && b in s.entries ::
      tables.identity(s.entries[a].path) == tables.identity(s.entries[b].path) ==> a == b
  }

  /** The payload is printed and parsed again before it is read. */
  ghost function DecodeArchive(tables: Tables, payload: Json): Option<Snapshot> {
    var j := Parse(Print(DEFAULT, payload, 0));
    if j.None? then None
    else
      var fields := OpenEnvelope(j.value, ARCHIVE_SCHEMA_VERSION);
      if fields.None? then None
      else
        var s := ParseArchive(tables, fields.value);
        if s.Some? && UniqueSnapshotPaths(tables, s.value) then s else None
  }

  lemma ArchivedRoundTrip(tables: Tables, claim: Claim, digest: string)
    requires IsGoodClaim(tables, claim) && IsContentDigest(digest)
    ensures ParseArchived(tables, ArchivedJson(claim, digest)) == Some((claim, digest))
    ensures Unrepeated(ArchivedJson(claim, digest))
  {
    hide IsGoodClaim, IsContentDigest, HasExactly, Field;
    ThreeFields(ArchivedJson(claim, digest).fields);
  }

  /** The part of a snapshot that the texts name. */
  ghost function Named(tables: Tables, s: Snapshot, texts: seq<string>): Snapshot {
    Snapshot(map k | k in s.entries && Encode(k) in texts :: s.entries[k],
             map k | k in s.digests && Encode(k) in texts :: s.digests[k])
  }

  lemma {:induction false} ArchiveFieldsRoundTrip(tables: Tables, s: Snapshot, texts: seq<string>)
    requires GoodSnapshot(tables, s)
    requires forall i :: 0 <= i < |texts| ==> texts[i] in Texts(s)
    ensures forall i :: 0 <= i < |texts| ==>
        Decode(tables.nameKey, texts[i]).Some? && Decode(tables.nameKey, texts[i]).value in s.entries
    ensures ParseArchive(tables, ArchiveFields(tables, s, texts)) == Some(Named(tables, s, texts))
    ensures forall i :: 0 <= i < |texts| ==> Unrepeated(ArchiveFields(tables, s, texts)[i].1)
  {
    hide ArtifactKeys.Encode, ArtifactKeys.Decode, IsGoodClaim, IsContentDigest, ParseArchived, ArchivedJson;
    TextsDecode(tables, s);
    if texts == [] {
      assert Named(tables, s, texts) == Snapshot(map[], map[]);
    } else {
      var n := |texts| - 1;
      ArchiveFieldsRoundTrip(tables, s, texts[..n]);
      var fields := ArchiveFields(tables, s, texts);
      assert fields[..n] == ArchiveFields(tables, s, texts[..n]);
      var k := Decode(tables.nameKey, texts[n]).value;
      ArchivedRoundTrip(tables, s.entries[k], s.digests[k]);
      NamedOneMore(tables, s, texts[..n], k);
      assert Encode(k) == texts[n] by { SoleText(tables, s, texts[n]); }
      assert texts == texts[..n] + [texts[n]];
      assert forall i :: 0 <= i < n ==> fields[i] == fields[..n][i];
    }
  }

  lemma SoleText(tables: Tables, s: Snapshot, text: string)
    requires GoodSnapshot(tables, s) && text in Texts(s)
    ensures Decode(tables.nameKey, text).Some? && Encode(Decode(tables.nameKey, text).value) == text
  {
    hide ArtifactKeys.Encode, ArtifactKeys.Decode;
    TextsDecode(tables, s);
    var k :| k in s.entries && Encode(k) == text;
  }

  lemma NamedOneMore(tables: Tables, s: Snapshot, texts: seq<string>, k: Key)
    requires GoodSnapshot(tables, s) && k in s.entries
    ensures var before := Named(tables, s, texts);
            Named(tables, s, texts + [Encode(k)])
            == Snapshot(before.entries[k := s.entries[k]], before.digests[k := s.digests[k]])
  {
    hide ArtifactKeys.Encode, ArtifactKeys.Decode, IsGoodClaim, IsContentDigest;
    forall other | other in s.entries && Encode(other) == Encode(k) ensures other == k {
      EncodeIsInjective(tables.nameKey, other, k);
    }
    assert forall t :: t in texts + [Encode(k)] <==> t in texts || t == Encode(k);
  }

  lemma DecodeOfEnvelope(tables: Tables, fields: seq<(string, Json)>, s: Snapshot)
    requires Unrepeated(Object(fields)) && ParseArchive(tables, fields) == Some(s) && UniqueSnapshotPaths(tables, s)
    ensures DecodeArchive(tables, Envelope(fields, ARCHIVE_SCHEMA_VERSION)) == Some(s)
  {
    hide Print, Parse, OpenEnvelope, ParseArchive, Envelope, UniqueSnapshotPaths, Unrepeated;
    var payload := Envelope(fields, ARCHIVE_SCHEMA_VERSION);
    RoundTrip(DEFAULT, payload, "");
    assert Print(DEFAULT, payload, 0) + "" == Print(DEFAULT, payload, 0);
    EnvelopeOpens(fields, ARCHIVE_SCHEMA_VERSION);
  }

  lemma AllNamed(tables: Tables, s: Snapshot)
    requires s.entries.Keys == s.digests.Keys
    ensures Named(tables, s, TextOrder.Sorted(Texts(s))) == s
  {
    hide ArtifactKeys.Encode, TextOrder.Below;
    var texts := TextOrder.Sorted(Texts(s));
    assert forall k :: k in s.entries ==> Encode(k) in Texts(s) && Encode(k) in texts;
    var named := Named(tables, s, texts);
    assert named.entries == s.entries;
    assert named.digests == s.digests;
  }

  lemma GoodSnapshotKeys(tables: Tables, s: Snapshot)
    requires GoodSnapshot(tables, s)
    ensures s.entries.Keys == s.digests.Keys
  {
  }

  lemma FieldNames(tables: Tables, s: Snapshot, texts: seq<string>)
    requires forall i :: 0 <= i < |texts| ==> Decode(tables.nameKey, texts[i]).Some?
    requires forall i :: 0 <= i < |texts| ==> Decode(tables.nameKey, texts[i]).value in s.entries
    requires s.entries.Keys == s.digests.Keys
    ensures var fields := ArchiveFields(tables, s, texts);
            |fields| == |texts| && forall i :: 0 <= i < |fields| ==> fields[i].0 == texts[i]
  {
    hide ArtifactKeys.Decode;
  }

  /** An encoded archive snapshot with single-owner paths decodes to itself. */
  lemma ArchiveRoundTrip(tables: Tables, s: Snapshot)
    requires GoodSnapshot(tables, s) && UniqueSnapshotPaths(tables, s)
    ensures EncodeArchive(tables, s).Some?
    ensures DecodeArchive(tables, EncodeArchive(tables, s).value) == Some(s)
  {
    hide ArtifactKeys.Encode, ArtifactKeys.Decode, DecodeArchive, ParseArchive, Envelope, IsGoodClaim, IsContentDigest;
    hide Named, Texts, UniqueSnapshotPaths, TextOrder.Sorted, ArchiveFields, GoodSnapshot;
    var texts := TextOrder.Sorted(Texts(s));
    TextsDecode(tables, s);
    GoodSnapshotKeys(tables, s);
    var fields := ArchiveFields(tables, s, texts);
    ArchiveFieldsRoundTrip(tables, s, texts);
    FieldNames(tables, s, texts);
    AllNamed(tables, s);
    DecodeOfEnvelope(tables, fields, s);
  }
}
