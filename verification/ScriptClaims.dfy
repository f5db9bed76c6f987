/**
  Committing a new episode script: its claim and the removal of every claim it orphans go into one guarded
  manifest commit.
*/
module ScriptClaims {
  import opened Prelude
  import opened ArtifactKeys
  import opened ManifestStore
  import opened ClaimRekey
  import Json

  /** Every claim that may hang on one resource of an episode. */
  function ResourceArtifacts(episode: int, id: string): set<Key> {
    {OfResource(Storyboard, episode, id), OfResource(Video, episode, id), OfResource(Audio, episode, id),
     OfVariant(Subtitle, episode, id, "post_production"), OfVariant(Subtitle, episode, id, "use_tts"),
     OfVariant(Presentation, episode, id, "post_production"), OfVariant(Presentation, episode, id, "use_tts")}
  }

  predicate IsResourceOf(k: Key, episode: int) {
    || (k.OfResource? && !k.resourceKind.Grid? && k.episode == episode)
    || (k.OfVariant? && k.episode == episode)
  }

  predicate IsGridOf(k: Key, episode: int) {
    k.OfResource? && k.resourceKind.Grid? && k.episode == episode
  }

  /** What the new script leaves without a home: claims of resources gone, removed or replaced. */
  function Orphaned(
      claimed: set<Key>, episode: int, remaining: set<string>, removed: set<string>, replaced: set<string>): set<Key>
  {
    (set k | k in claimed && IsResourceOf(k, episode) && k.resourceId !in remaining)
    + (set id, k | id in removed - remaining && k in ResourceArtifacts(episode, id) :: k)
    + (set id, k | id in replaced && k in ResourceArtifacts(episode, id) :: k)
  }

  /** The same set, gathered as the source gathers it. */
  method GatherOrphans(
      claimed: set<Key>, episode: int, remaining: set<string>, removed: set<string>, replaced: set<string>)
    returns (orphans: set<Key>)
    ensures orphans == Orphaned(claimed, episode, remaining, removed, replaced)
  {
    orphans := {};
    var todo := claimed;
    while todo != {}
      invariant todo <= claimed
      invariant orphans == set k | k in claimed && k !in todo && IsResourceOf(k, episode) && k.resourceId !in remaining
      decreases todo
    {
      var k :| k in todo;
      todo := todo - {k};
      if IsResourceOf(k, episode) && k.resourceId !in remaining {
        orphans := orphans + {k};
      }
    }
    var gone := ArtifactsOf(episode, removed - remaining);
    var swapped := ArtifactsOf(episode, replaced);
    orphans := orphans + gone + swapped;
  }

  method ArtifactsOf(episode: int, ids: set<string>) returns (keys: set<Key>)
    ensures keys == set id, k | id in ids && k in ResourceArtifacts(episode, id) :: k
  {
    hide ResourceArtifacts;
    keys := {};
    var todo := ids;
    while todo != {}
      invariant todo <= ids
      invariant keys == set id, k | id in ids - todo && k in ResourceArtifacts(episode, id) :: k
      decreases todo
    {
      var id :| id in todo;
      todo := todo - {id};
      keys := keys + ResourceArtifacts(episode, id);
    }
    assert ids - todo == ids;
  }

  /** The keys of a snapshot of the store. */
  function ClaimedKeys(nameKey: string -> string, claims: Claims): set<Key> {
    set text | text in claims && Decode(nameKey, text).Some? :: Decode(nameKey, text).value
  }

  function Texts(keys: set<Key>): set<string> {
    set k | k in keys :: Encode(k)
  }

  method TextsOf(keys: set<Key>) returns (texts: set<string>)
    ensures texts == Texts(keys)
  {
    hide Encode;
    texts := {};
    var todo := keys;
    while todo != {}
      invariant todo <= keys && texts == Texts(keys - todo)
      decreases todo
    {
      var k :| k in todo;
      todo := todo - {k};
      texts := texts + {Encode(k)};
    }
    assert keys - todo == keys;
  }

  function Grids(claimed: set<Key>, episode: int): set<Key> {
    set k | k in claimed && IsGridOf(k, episode)
  }

  function ScriptText(episode: int): string
    requires episode > 0
  {
    Encode(OfEpisode(Script, episode))
  }

  /** The script's claim together with the removal of everything dropped. */
  function Replacements(episode: int, claim: Option<Claim>, dropped: set<Key>): Scope
    requires episode > 0
  {
    (map text | text in Texts(dropped) :: None)[ScriptText(episode) := claim]
  }

  /** The script's claim, the orphans and the episode's grids, as the preflight saw them. */
  function Guards(snapshot: Claims, episode: int, watched: set<Key>): Scope
    requires episode > 0
  {
    map text | text in Texts(watched) + {ScriptText(episode)} :: Lookup(snapshot, text)
  }

  /** One script replacement: what stays, what goes, and which grid claims have lost their target. */
  datatype Change = Change(
    episode: int, claim: Option<Claim>, remaining: set<string>, removed: set<string>, replaced: set<string>,
    staleGrids: set<Key>)

  function OrphansOf(nameKey: string -> string, snapshot: Claims, c: Change): set<Key> {
    Orphaned(ClaimedKeys(nameKey, snapshot), c.episode, c.remaining, c.removed, c.replaced)
  }

  function GridsOf(nameKey: string -> string, snapshot: Claims, c: Change): set<Key> {
    Grids(ClaimedKeys(nameKey, snapshot), c.episode)
  }

  function Batch(nameKey: string -> string, snapshot: Claims, c: Change): Scope
    requires c.episode > 0
  {
    Replacements(c.episode, c.claim, OrphansOf(nameKey, snapshot, c) + c.staleGrids)
  }

  function BatchGuards(nameKey: string -> string, snapshot: Claims, c: Change): Scope
    requires c.episode > 0
  {
    Guards(snapshot, c.episode, OrphansOf(nameKey, snapshot, c) + GridsOf(nameKey, snapshot, c))
  }

  /** Preflight on a snapshot and commit of a script, others writing from the snapshot on. */
  method CommitScript(
      nameKey: string -> string, store: SharedStore, c: Change, present: string -> bool, around: Surroundings)
    returns (result: Registration)
    requires c.episode > 0 && c.staleGrids <= GridsOf(nameKey, store.entries, c)
    requires ReadsAll(around, BatchGuards(nameKey, store.entries, c).Keys + Batch(nameKey, store.entries, c).Keys)
    modifies store
    ensures (store.entries, result) ==
              Registering(store.identity, old(store.entries), Batch(nameKey, old(store.entries), c),
                          BatchGuards(nameKey, old(store.entries), c), present, around)
  {
    hide Encode, ArtifactKeys.Decode, Orphaned, ClaimedKeys, Json.Print, Registering;
    var snapshot := store.entries;
    var claimed := ClaimedKeys(nameKey, snapshot);
    var orphans := GatherOrphans(claimed, c.episode, c.remaining, c.removed, c.replaced);
    var watched := TextsOf(orphans + Grids(claimed, c.episode));
    var dropped := TextsOf(orphans + c.staleGrids);
    var script := ScriptText(c.episode);
    var expected: Scope := map text | text in watched + {script} :: Lookup(snapshot, text);
    var gone: Scope := map text | text in dropped :: None;
    result := store.Register(gone[script := c.claim], expected, present, around);
  }

  /**
    When a script change registers, then at one moment `at`, whoever else wrote since the preflight: the script's
    claim and every orphan and grid claim of the episode were still what the preflight saw; the script's claim is
    set, every orphan and every stale grid claim is gone, and no other claim has changed.
  */
  lemma ScriptCommitMeaning(
      identity: string -> string, nameKey: string -> string, snapshot: Claims, c: Change, present: string -> bool,
      around: Surroundings)
    requires c.episode > 0 && c.staleGrids <= GridsOf(nameKey, snapshot, c)
    requires ReadsAll(around, BatchGuards(nameKey, snapshot, c).Keys + Batch(nameKey, snapshot, c).Keys)
    ensures var (end, result) := Registering(
              identity, snapshot, Batch(nameKey, snapshot, c), BatchGuards(nameKey, snapshot, c), present, around);
            var at := Seen(Observed(snapshot, map[], around.observing).0, around.first);
            var orphans, script := OrphansOf(nameKey, snapshot, c), ScriptText(c.episode);
            result == Registered ==>
              && (c.claim.Some? ==> present(c.claim.value.path))
              && Lookup(at, script) == Lookup(snapshot, script) && Lookup(end, script) == c.claim
              && (forall k :: k in orphans + c.staleGrids && Encode(k) != script ==> Encode(k) !in end)
              && (forall k :: k in orphans + GridsOf(nameKey, snapshot, c) ==>
                    Lookup(at, Encode(k)) == Lookup(snapshot, Encode(k)))
              && (forall text :: text != script && (forall k :: k in orphans + c.staleGrids ==> Encode(k) != text) ==>
                    Lookup(end, text) == Lookup(at, text))
  {
    hide Encode, ArtifactKeys.Decode, Orphaned, ClaimedKeys, Json.Print, Registering, Observed, Applied, UniquePaths,
        IsGridOf;
    var batch, guarded := Batch(nameKey, snapshot, c), BatchGuards(nameKey, snapshot, c);
    var orphans, script := OrphansOf(nameKey, snapshot, c), ScriptText(c.episode);
    var (end, result) := Registering(identity, snapshot, batch, guarded, present, around);
    var at := Seen(Observed(snapshot, map[], around.observing).0, around.first);
    assert script in batch && batch[script] == c.claim && script in guarded;
    RegisterMeaning(identity, snapshot, batch, guarded, present, around);
    if result == Registered {
      AppliedMatches(at, batch);
      forall k | k in orphans + c.staleGrids && Encode(k) != script ensures Encode(k) !in end {
        assert Encode(k) in Texts(orphans + c.staleGrids) && batch[Encode(k)] == None;
        assert Lookup(end, Encode(k)) == None;
      }
      forall k | k in orphans + GridsOf(nameKey, snapshot, c)
        ensures Lookup(at, Encode(k)) == Lookup(snapshot, Encode(k))
      {
        assert Encode(k) in Texts(orphans + GridsOf(nameKey, snapshot, c)) && Encode(k) in guarded;
      }
    }
  }

  /** Alone on the store, a script change is registered exactly unless something is missing, already so, or failing. */
  lemma ScriptCommitAlone(
      identity: string -> string, nameKey: string -> string, snapshot: Claims, c: Change, present: string -> bool,
      around: Surroundings)
    requires c.episode > 0 && c.staleGrids <= GridsOf(nameKey, snapshot, c)
    requires ReadsAll(around, BatchGuards(nameKey, snapshot, c).Keys + Batch(nameKey, snapshot, c).Keys)
    requires AllQuiet(around) && UniquePaths(identity, snapshot)
    ensures var batch := Batch(nameKey, snapshot, c);
            var (end, result) := Registering(identity, snapshot, batch, BatchGuards(nameKey, snapshot, c), present,
                around);
            && (result == Registered <==>
                  && AllPresent(batch, present) && !Matches(snapshot, batch)
                  && around.first.fault == NoFault && UniquePaths(identity, Applied(snapshot, batch)))
            && (result == Registered ==> end == Applied(snapshot, batch))
            && (result != Registered && result != Broken(RollbackIncomplete) ==> end == snapshot)
  {
    hide Encode, ArtifactKeys.Decode, Orphaned, ClaimedKeys, Json.Print, Registering, Observed, Applied, UniquePaths,
        IsGridOf;
    var batch, guarded := Batch(nameKey, snapshot, c), BatchGuards(nameKey, snapshot, c);
    assert ScriptText(c.episode) in batch;
    RegisterMeaning(identity, snapshot, batch, guarded, present, around);
    RegisterAlone(identity, snapshot, batch, guarded, present, around);
    CalmObservation(snapshot, around.observing);
    assert Matches(snapshot, guarded);
  }
}
