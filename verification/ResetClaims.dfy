/**
  The artifact claims of a planning reset: every claim of an episode in scope is removed in one guarded commit.
*/
module ResetClaims {
  import opened Prelude
  import opened ArtifactKeys
  import opened ManifestStore
  import opened ClaimRekey

  function EpisodeNumber(k: Key): Option<int> {
    if k.AssetSheet? then None else Some(k.episode)
  }

  /** The claim belongs to an episode that the reset removes. */
  predicate IsReset(nameKey: string -> string, text: string, from: int) {
    var key := Decode(nameKey, text);
    && key.Some? && EpisodeNumber(key.value).Some?
    && (from == 1 || EpisodeNumber(key.value).value >= from)
  }

  function ResetTexts(nameKey: string -> string, snapshot: Claims, from: int): set<string> {
    set text | text in snapshot && IsReset(nameKey, text, from)
  }

  function Removals(nameKey: string -> string, snapshot: Claims, from: int): (removals: Scope)
    ensures removals.Keys == ResetTexts(nameKey, snapshot, from)
  {
    map text | text in ResetTexts(nameKey, snapshot, from) :: None
  }

  /** Each claim to be removed must still be what the snapshot saw. */
  function AsSeen(nameKey: string -> string, snapshot: Claims, from: int): (seen: Scope)
    ensures seen.Keys == ResetTexts(nameKey, snapshot, from)
  {
    map text | text in ResetTexts(nameKey, snapshot, from) :: Some(snapshot[text])
  }

  function Survivors(nameKey: string -> string, claims: Claims, from: int): Claims {
    map text | text in claims && !IsReset(nameKey, text, from) :: claims[text]
  }

  /** The guarded removal of everything in scope. */
  ghost function Forgotten(
      identity: string -> string, nameKey: string -> string, snapshot: Claims, from: int, around: Surroundings):
      (Claims, Registration)
    requires ReadsAll(around, ResetTexts(nameKey, snapshot, from))
  {
    Registering(
      identity, snapshot, Removals(nameKey, snapshot, from), AsSeen(nameKey, snapshot, from), ANY_FILE, around)
  }

  /** Snapshot and removal, others writing from the snapshot on. */
  method ForgetEpisodes(nameKey: string -> string, store: SharedStore, from: int, around: Surroundings)
    returns (result: Registration)
    requires ReadsAll(around, ResetTexts(nameKey, store.entries, from))
    modifies store
    ensures (store.entries, result) == Forgotten(store.identity, nameKey, old(store.entries), from, around)
  {
    hide IsReset, Registering;
    var expected := GatherSeen(nameKey, store.entries, from);
    var removals: Scope := map text | text in expected :: None;
    assert removals == Removals(nameKey, store.entries, from);
    result := store.Register(removals, expected, ANY_FILE, around);
  }

  /** The claims in scope as the snapshot holds them, gathered one by one. */
  method GatherSeen(nameKey: string -> string, snapshot: Claims, from: int) returns (expected: Scope)
    ensures expected == AsSeen(nameKey, snapshot, from)
  {
    hide IsReset;
    expected := map[];
    var todo := snapshot.Keys;
    while todo != {}
      invariant todo <= snapshot.Keys
      invariant expected == map text | text in snapshot && text !in todo && IsReset(nameKey, text, from) ::
                              Some(snapshot[text])
      decreases todo
    {
      var text :| text in todo;
      todo := todo - {text};
      if IsReset(nameKey, text, from) {
        expected := expected[text := Some(snapshot[text])];
      }
    }
  }

  /**
    When the removal registers, then at one moment, whoever else wrote since the snapshot: every claim it removes
    was still what the snapshot saw, all of them are gone at once, and every other claim is as it then stood. It is
    not needed only where the snapshot held no claim in scope.
  */
  lemma ForgetEpisodesMeaning(
      identity: string -> string, nameKey: string -> string, snapshot: Claims, from: int, around: Surroundings)
    requires ReadsAll(around, ResetTexts(nameKey, snapshot, from))
    ensures var (end, result) := Forgotten(identity, nameKey, snapshot, from, around);
            var at := Seen(Observed(snapshot, map[], around.observing).0, around.first);
            && (result == Registered ==>
                  && (forall text :: text in ResetTexts(nameKey, snapshot, from) ==>
                        Lookup(at, text) == Some(snapshot[text]) && text !in end)
                  && (forall text :: text !in ResetTexts(nameKey, snapshot, from) ==>
                      Lookup(end, text) == Lookup(at, text)))
            && (result == NotNeeded <==> ResetTexts(nameKey, snapshot, from) == {})
            && result != MissingArtifact
  {
    hide IsReset, Registering, Observed, Applied, UniquePaths;
    var removals, expected := Removals(nameKey, snapshot, from), AsSeen(nameKey, snapshot, from);
    var at := Seen(Observed(snapshot, map[], around.observing).0, around.first);
    if ResetTexts(nameKey, snapshot, from) == {} {
      assert removals == map[];
      EmptyBatch(identity, snapshot, removals, expected, ANY_FILE, around);
    } else {
      var text :| text in ResetTexts(nameKey, snapshot, from);
      assert text in removals && removals[text] == None && expected[text] == Some(snapshot[text]);
      RegisterMeaning(identity, snapshot, removals, expected, ANY_FILE, around);
      AppliedMatches(at, removals);
      var (end, result) := Registering(identity, snapshot, removals, expected, ANY_FILE, around);
      forall gone | result == Registered && gone in ResetTexts(nameKey, snapshot, from)
        ensures Lookup(at, gone) == Some(snapshot[gone]) && gone !in end
      {
        assert gone in expected && gone in removals;
        assert Lookup(end, gone) == None;
      }
    }
  }

  /**
    Alone on the store and without a fault, exactly the claims out of scope remain, so that a full reset leaves no
    claim of any episode; whatever else the outcome, every claim is as before, unless a failing rollback is reported.
  */
  lemma ForgetEpisodesAlone(
      identity: string -> string, nameKey: string -> string, snapshot: Claims, from: int, around: Surroundings)
    requires ReadsAll(around, ResetTexts(nameKey, snapshot, from)) && AllQuiet(around)
        && UniquePaths(identity, snapshot)
    ensures var (end, result) := Forgotten(identity, nameKey, snapshot, from, around);
            && (result == Registered || result == NotNeeded ==>
                  && end == Survivors(nameKey, snapshot, from)
                  && (from == 1 ==> forall text :: text in end && Decode(nameKey, text).Some? ==>
                        EpisodeNumber(Decode(nameKey, text).value).None?))
            && (around.first.fault == NoFault ==> result == Registered || result == NotNeeded)
            && (result != Registered && result != Broken(RollbackIncomplete) ==> end == snapshot)
  {
    hide Registering, Observed, Applied, Decode;
    var removals, expected := Removals(nameKey, snapshot, from), AsSeen(nameKey, snapshot, from);
    RegisterAlone(identity, snapshot, removals, expected, ANY_FILE, around);
    ForgetEpisodesMeaning(identity, nameKey, snapshot, from, around);
    SurvivorsRemain(nameKey, snapshot, from);
    if removals != map[] {
      RegisterMeaning(identity, snapshot, removals, expected, ANY_FILE, around);
      CalmObservation(snapshot, around.observing);
      assert Matches(snapshot, expected);
    }
  }

  lemma SurvivorsRemain(nameKey: string -> string, snapshot: Claims, from: int)
    ensures Applied(snapshot, Removals(nameKey, snapshot, from)) == Survivors(nameKey, snapshot, from)
    ensures ResetTexts(nameKey, snapshot, from) == {} ==> Survivors(nameKey, snapshot, from) == snapshot
  {
    hide IsReset;
    if ResetTexts(nameKey, snapshot, from) == {} {
      forall text | text in snapshot ensures !IsReset(nameKey, text, from) {
        assert text !in ResetTexts(nameKey, snapshot, from);
      }
    }
  }
}
