/**
  Typed artifact identities and their canonical text: compact JSON in UTF-8 in unpadded URL-safe Base64.
  Decoding re-encodes, so it accepts canonical texts only.
*/
module ArtifactKeys {
  import opened Prelude
  import opened Json
  import Base64
  import Utf8

  datatype EpisodeKind = Step1 | Script

  datatype ResourceKind = Grid | Storyboard | Video | Audio

  datatype VariantKind = Subtitle | Presentation

  datatype Key =
    | AssetSheet(assetType: string, assetId: string)
    | OfEpisode(episodeKind: EpisodeKind, episode: int)
    | OfResource(resourceKind: ResourceKind, episode: int, resourceId: string)
    | OfVariant(variantKind: VariantKind, episode: int, resourceId: string, variant: string)

  const ASSET_TYPES: set<string> := {"character", "scene", "prop", "product"}
  const VARIANTS: set<string> := {"post_production", "use_tts"}
  const PREFIX := "artifact-key-v1:"

  /** `nameKey` brings an asset name into its comparison form. */
  predicate Valid(nameKey: string -> string, k: Key) {
    match k
    case AssetSheet(assetType, assetId) => assetType in ASSET_TYPES && assetId != "" && nameKey(assetId) == assetId
    case OfEpisode(_, episode) => episode > 0
    case OfResource(_, episode, resourceId) => episode > 0 && resourceId != ""
    case OfVariant(_, episode, resourceId, variant) => episode > 0 && resourceId != "" && variant in VARIANTS
  }

  function KindName(k: Key): string {
    match k
    case AssetSheet(_, _) => "asset-sheet"
    case OfEpisode(Step1, _) => "episode-step1"
    case OfEpisode(Script, _) => "episode-script"
    case OfResource(Grid, _, _) => "episode-grid"
    case OfResource(Storyboard, _, _) => "episode-storyboard"
    case OfResource(Video, _, _) => "episode-video"
    case OfResource(Audio, _, _) => "episode-audio"
    case OfVariant(Subtitle, _, _, _) => "episode-subtitle"
    case OfVariant(Presentation, _, _, _) => "episode-presentation"
  }

  function Components(k: Key): seq<Json> {
    match k
    case AssetSheet(assetType, assetId) => [Str(assetType), Str(assetId)]
    case OfEpisode(_, episode) => [Int(episode)]
    case OfResource(_, episode, resourceId) => [Int(episode), Str(resourceId)]
    case OfVariant(_, episode, resourceId, variant) => [Int(episode), Str(resourceId), Str(variant)]
  }

  function Encode(k: Key): string {
    PREFIX + Base64.Encode(Utf8.Encode(Print(COMPACT, Array([Str(KindName(k))] + Components(k)), 0)))
  }

  function AssetKey(nameKey: string -> string, parts: seq<Json>): Option<Key> {
    if |parts| == 2 && parts[0].Str? && parts[1].Str? && parts[0].s in ASSET_TYPES && nameKey(parts[1].s) != ""
    then Some(AssetSheet(parts[0].s, nameKey(parts[1].s)))
    else None
  }

  function EpisodeKey(kind: EpisodeKind, parts: seq<Json>): Option<Key> {
    if |parts| == 1 && parts[0].Int? && parts[0].n > 0 then Some(OfEpisode(kind, parts[0].n)) else None
  }

  function ResourceKey(kind: ResourceKind, parts: seq<Json>): Option<Key> {
    if |parts| == 2 && parts[0].Int? && parts[0].n > 0 && parts[1].Str? && parts[1].s != ""
    then Some(OfResource(kind, parts[0].n, parts[1].s))
    else None
  }

  function VariantKey(kind: VariantKind, parts: seq<Json>): Option<Key> {
    if |parts| == 3 && parts[0].Int? && parts[0].n > 0 && parts[1].Str? && parts[1].s != ""
       && parts[2].Str? && parts[2].s in VARIANTS
    then Some(OfVariant(kind, parts[0].n, parts[1].s, parts[2].s))
    else None
  }

  function FromParts(nameKey: string -> string, kind: string, parts: seq<Json>): Option<Key> {
    if kind == "asset-sheet" then AssetKey(nameKey, parts)
    else if kind == "episode-step1" then EpisodeKey(Step1, parts)
    else if kind == "episode-script" then EpisodeKey(Script, parts)
    else if kind == "episode-grid" then ResourceKey(Grid, parts)
    else if kind == "episode-storyboard" then ResourceKey(Storyboard, parts)
    else if kind == "episode-video" then ResourceKey(Video, parts)
    else if kind == "episode-audio" then ResourceKey(Audio, parts)
    else if kind == "episode-subtitle" then VariantKey(Subtitle, parts)
    else if kind == "episode-presentation" then VariantKey(Presentation, parts)
    else None
  }

  function Payload(token: string): Option<Json> {
    var raw := Base64.Decode(token);
    if raw.None? then None
    else
      var text := Utf8.Decode(raw.value);
      if text.None? then None else Parse(text.value)
  }

  function Decode(nameKey: string -> string, value: string): Option<Key> {
    if !(PREFIX <= value) then None
    else
      var payload := Payload(value[|PREFIX|..]);
      if payload.None? || !payload.value.Array? || payload.value.items == [] || !payload.value.items[0].Str? then None
      else
        var key := FromParts(nameKey, payload.value.items[0].s, payload.value.items[1..]);
        if key.None? || Encode(key.value) != value then None else key
  }

  lemma PayloadRoundTrip(j: Json)
    ensures Payload(Base64.Encode(Utf8.Encode(Print(COMPACT, j, 0)))) == Some(j)
  {
    var text := Print(COMPACT, j, 0);
    Base64.RoundTrip(Utf8.Encode(text));
    Utf8.RoundTrip(text);
    RoundTrip(COMPACT, j, "");
    assert text + "" == text;
  }

  lemma PartsRoundTrip(nameKey: string -> string, k: Key)
    requires Valid(nameKey, k)
    ensures FromParts(nameKey, KindName(k), Components(k)) == Some(k)
  {
  }

  /** Every valid key survives its text. */
  lemma DecodeOfEncode(nameKey: string -> string, k: Key)
    requires Valid(nameKey, k)
    ensures Decode(nameKey, Encode(k)) == Some(k)
  {
    hide Print, Payload, FromParts;
    var items := [Str(KindName(k))] + Components(k);
    PayloadRoundTrip(Array(items));
    PartsRoundTrip(nameKey, k);
    assert items[1..] == Components(k);
    assert Encode(k)[|PREFIX|..] == Base64.Encode(Utf8.Encode(Print(COMPACT, Array(items), 0)));
  }

  ghost predicate Idempotent(nameKey: string -> string) {
    forall name :: nameKey(nameKey(name)) == nameKey(name)
  }

  /** Every accepted text is the canonical text of a valid key: padding, stray bits and spare spaces are refused. */
  lemma EncodeOfDecode(nameKey: string -> string, value: string)
    requires Idempotent(nameKey) && Decode(nameKey, value).Some?
    ensures Valid(nameKey, Decode(nameKey, value).value)
    ensures Encode(Decode(nameKey, value).value) == value
  {
    hide Encode, Payload;
    var items := Payload(value[|PREFIX|..]).value.items;
    PartsAreValid(nameKey, items[0].s, items[1..]);
  }

  lemma PartsAreValid(nameKey: string -> string, kind: string, parts: seq<Json>)
    requires Idempotent(nameKey) && FromParts(nameKey, kind, parts).Some?
    ensures Valid(nameKey, FromParts(nameKey, kind, parts).value)
  {
  }

  /** Different keys never share a text. */
  lemma EncodeIsInjective(nameKey: string -> string, a: Key, b: Key)
    requires Valid(nameKey, a) && Valid(nameKey, b) && Encode(a) == Encode(b)
    ensures a == b
  {
    DecodeOfEncode(nameKey, a);
    DecodeOfEncode(nameKey, b);
  }

  /** A text is accepted exactly when it is some valid key's text. */
  lemma AcceptedExactlyWhenCanonical(nameKey: string -> string, value: string)
    requires Idempotent(nameKey)
    ensures Decode(nameKey, value).Some? <==> exists k :: Valid(nameKey, k) && Encode(k) == value
  {
    if Decode(nameKey, value).Some? {
      EncodeOfDecode(nameKey, value);
    }
    forall k | Valid(nameKey, k) && Encode(k) == value ensures Decode(nameKey, value).Some? {
      DecodeOfEncode(nameKey, k);
    }
  }
}
