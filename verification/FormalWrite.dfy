/**
  Multi-file formal commits: every listed file is remembered before the body runs and put back when the
  body fails. Composed with claim removal, deleting a grid is all or nothing.
*/
module FormalWrite {
  import opened Prelude
  import opened ManifestStore
  import opened ClaimRekey

  /** A directory entry's own content; a link is remembered by its target. */
  datatype Node = Bytes(content: string) | Link(target: string)

  type Files = map<string, Node>

  function Entry(files: Files, entry: string): Option<Node> {
    if entry in files then Some(files[entry]) else None
  }

  datatype Snapshot = Snapshot(entry: string, before: Option<Node>)

  datatype RestoreFault = Fine | FailsAtOnce | FailsAfterUnlink

  predicate FaultFree(faults: map<string, RestoreFault>) {
    forall entry :: entry in faults ==> faults[entry] == Fine
  }

  ghost predicate DistinctEntries(snaps: seq<Snapshot>) {
    forall i, j :: 0 <= i < j < |snaps| ==> snaps[i].entry != snaps[j].entry
  }

  ghost predicate Covers(snaps: seq<Snapshot>, entry: string) {
    exists i :: 0 <= i < |snaps| && snaps[i].entry == entry
  }

  /** Each covered entry is what the snapshot remembers. */
  ghost predicate Agrees(files: Files, snaps: seq<Snapshot>) {
    forall i :: 0 <= i < |snaps| ==> Entry(files, snaps[i].entry) == snaps[i].before
  }

  datatype Receipt = Receipt(before: seq<Snapshot>, committed: seq<Snapshot>)

  class FormalFiles {
    /** The directory entry a raw path leads to, its parent resolved. */
    const entryOf: string -> string
    var files: Files

    constructor (entryOf: string -> string, files: Files)
      ensures this.entryOf == entryOf && this.files == files
    {
      this.entryOf, this.files := entryOf, files;
    }

    /** One snapshot per directory entry, however many raw paths lead to it. */
    method Begin(paths: seq<string>) returns (snaps: seq<Snapshot>)
      ensures DistinctEntries(snaps) && Agrees(files, snaps)
      ensures forall entry :: Covers(snaps, entry) <==> exists i :: 0 <= i < |paths| && entryOf(paths[i]) == entry
    {
      snaps := [];
      var seen: set<string> := {};
      for i := 0 to |paths|
        invariant DistinctEntries(snaps) && Agrees(files, snaps)
        invariant forall entry :: entry in seen <==> exists k :: 0 <= k < i && entryOf(paths[k]) == entry
        invariant forall entry :: entry in seen <==> Covers(snaps, entry)
      {
        var entry := entryOf(paths[i]);
        if entry in seen {
          continue;
        }
        ghost var earlier, was := snaps, seen;
        seen := seen + {entry};
        snaps := snaps + [Snapshot(entry, Entry(files, entry))];
        OneMoreCovered(earlier, snaps[|snaps| - 1]);
      }
    }

    /** Puts one entry back; a link that still has its target is left alone. */
    method RestoreOne(snap: Snapshot, fault: RestoreFault) returns (ok: bool)
      modifies this
      ensures ok ==> Entry(files, snap.entry) == snap.before
      ensures fault == Fine ==> ok
      ensures forall entry :: entry != snap.entry ==> Entry(files, entry) == Entry(old(files), entry)
    {
      match snap.before {
        case Some(Link(target)) =>
          if Entry(files, snap.entry) == snap.before {
            return true;
          }
          if fault == FailsAtOnce {
            return false;
          }
          files := files - {snap.entry};
          if fault == FailsAfterUnlink {
            return false;
          }
          files := files[snap.entry := Link(target)];
        case None =>
          if fault != Fine && snap.entry in files {
            return false;
          }
          files := files - {snap.entry};
        case Some(Bytes(content)) =>
          if fault != Fine {
            return false;
          }
          files := files[snap.entry := Bytes(content)];
      }
      ok := true;
    }

    /** Restores in reverse order, trying every entry even after a failure; `complete` is false where it raises. */
    method RestoreSnapshots(snaps: seq<Snapshot>, faults: map<string, RestoreFault>) returns (complete: bool)
      requires DistinctEntries(snaps)
      modifies this
      ensures complete ==> Agrees(files, snaps)
      ensures FaultFree(faults) ==> complete
      ensures forall entry :: !Covers(snaps, entry) ==> Entry(files, entry) == Entry(old(files), entry)
    {
      complete := true;
      var i := |snaps|;
      while i > 0
        invariant 0 <= i <= |snaps|
        invariant complete ==> Agrees(files, snaps[i..])
        invariant FaultFree(faults) ==> complete
        invariant forall entry :: !Covers(snaps, entry) ==> Entry(files, entry) == Entry(old(files), entry)
      {
        i := i - 1;
        var fault := if snaps[i].entry in faults then faults[snaps[i].entry] else Fine;
        assert Covers(snaps, snaps[i].entry);
        assert forall k :: 0 < k < |snaps[i..]| ==> snaps[i..][k] == snaps[i + 1..][k - 1];
        var ok := RestoreOne(snaps[i], fault);
        complete := complete && ok;
      }
      assert snaps[0..] == snaps;
    }

    /** The snapshots of the same entries as they now are. */
    method Recapture(snaps: seq<Snapshot>) returns (now: seq<Snapshot>)
      ensures |now| == |snaps| && Agrees(files, now)
      ensures forall i :: 0 <= i < |snaps| ==> now[i].entry == snaps[i].entry
    {
      now := [];
      for i := 0 to |snaps|
        invariant |now| == i && Agrees(files, now)
        invariant forall k :: 0 <= k < i ==> now[k].entry == snaps[k].entry
      {
        now := now + [Snapshot(snaps[i].entry, Entry(files, snaps[i].entry))];
      }
    }

    /** The receipt of a body that succeeded. */
    method Commit(snaps: seq<Snapshot>) returns (receipt: Receipt)
      requires DistinctEntries(snaps)
      ensures receipt.before == snaps && Agrees(files, receipt.committed) && SameEntries(receipt)
    {
      var committed := Recapture(snaps);
      receipt := Receipt(snaps, committed);
    }

    /** Restores only while every file is still what the write committed; otherwise touches nothing. */
    method CompensateCancelled(receipt: Receipt, faults: map<string, RestoreFault>)
        returns (restored: bool, complete: bool)
      requires SameEntries(receipt)
      modifies this
      ensures restored <==> Agrees(old(files), receipt.committed)
      ensures !restored ==> files == old(files) && complete
      ensures restored && complete ==> Agrees(files, receipt.before)
      ensures forall entry :: !Covers(receipt.before, entry) ==> Entry(files, entry) == Entry(old(files), entry)
    {
      var now := Recapture(receipt.committed);
      if now != receipt.committed {
        assert exists i :: 0 <= i < |now| && now[i] != receipt.committed[i];
        return false, true;
      }
      complete := RestoreSnapshots(receipt.before, faults);
      restored := true;
    }

    method Write(entry: string, node: Node)
      modifies this
      ensures files == old(files)[entry := node]
    {
      files := files[entry := node];
    }

    /** Removes an entry, or fails and leaves it. */
    method Unlink(entry: string, fails: bool) returns (ok: bool)
      modifies this
      ensures ok == !fails
      ensures files == if ok then old(files) - {entry} else old(files)
    {
      if fails {
        return false;
      }
      files := files - {entry};
      ok := true;
    }
  }

  ghost predicate SameEntries(receipt: Receipt) {
    && DistinctEntries(receipt.before)
    && |receipt.before| == |receipt.committed|
    && forall i :: 0 <= i < |receipt.before| ==> receipt.before[i].entry == receipt.committed[i].entry
  }

  lemma OneMoreCovered(snaps: seq<Snapshot>, snap: Snapshot)
    ensures forall entry :: Covers(snaps + [snap], entry) <==> Covers(snaps, entry) || entry == snap.entry
  {
    var more := snaps + [snap];
    forall entry ensures Covers(more, entry) <==> Covers(snaps, entry) || entry == snap.entry {
      if Covers(snaps, entry) {
        var i :| 0 <= i < |snaps| && snaps[i].entry == entry;
        assert more[i].entry == entry;
      }
      if entry == snap.entry {
        assert more[|snaps|].entry == entry;
      }
    }
  }

  // -------------------------------------------------------------------- grids

  /** What a grid record says: nothing usable, or the key of its claim, if one can be formed. */
  datatype Record = Unreadable | Grid(key: Option<string>)

  datatype Change = Missed | Updated | ChangeFailed | RestoreReported

  datatype Deletion = NotFound | Deleted | Failed | RollbackReported

  predicate ReadsItsKey(grid: Record, around: Surroundings) {
    grid.Grid? && grid.key.Some? ==>
      KeysOf(around.observing) == {grid.key.value} && KeysOf(around.readings) == {grid.key.value}
  }

  /** What becomes of the claims once both files are gone; an unreadable record carries no claim. */
  ghost function Forgetting(
      identity: string -> string, claims: Claims, grid: Record, around: Surroundings): (Claims, Option<Registration>)
    requires ReadsItsKey(grid, around)
  {
    match grid
    case Unreadable => (claims, Some(NotNeeded))
    case Grid(None) => (claims, None)
    case Grid(Some(key)) =>
      var (end, result) := Registering(identity, claims, map[key := None], map[], ANY_FILE, around);
      (end, Some(result))
  }

  predicate Succeeded(forgotten: Option<Registration>) {
    forgotten == Some(NotNeeded) || forgotten == Some(Registered)
  }

  lemma AppliedRemoval(at: Claims, key: string)
    ensures Applied(at, map[key := None]) == at - {key}
  {
  }

  /**
    Whoever else writes: a grid counts as deleted only when its claim was there and was taken out of the claims as
    they stood, or was found absent; when it is not, the claims are what the others left, or the commit put back
    what it had observed; and every other claim is at every end just what the others made of it.
  */
  lemma ForgettingMeaning(identity: string -> string, claims: Claims, key: string, around: Surroundings, other: string)
    requires KeysOf(around.observing) == {key} && KeysOf(around.readings) == {key} && other != key
    ensures var (end, forgotten) := Forgetting(identity, claims, Grid(Some(key)), around);
            var (seen, observed) := Observed(claims, map[], around.observing);
            var at := Seen(seen, around.first);
            && (forgotten == Some(Registered) ==> key in at && end == at - {key})
            && (forgotten == Some(NotNeeded) ==>
                  && end == seen
                  && exists i :: 0 <= i < |around.observing| && key !in ReadAt(claims, around.observing, i))
            && (!Succeeded(forgotten) && !forgotten.value.Broken? ==> end == seen || end == at)
            && (forgotten == Some(Broken(OriginalErrorReraised)) ==>
                  var back := Seen(AfterSwap(identity, at, observed.value, map[key := None], around.first.fault),
                      around.second);
                  || (key !in back && end == Applied(back, observed.value))
                  || (key in back && FoundAll(back, observed.value, around.readings)))
            && exists passed ::
                 passed <= Weathers(around.observing) + [around.first, around.second] + Weathers(around.readings)
                 && Lookup(end, other) == Lookup(AfterOthers(claims, passed), other)
  {
    hide Applied, UniquePaths, Registering, Observed, FoundAll, Carried;
    var gone: Scope := map[key := None];
    var (seen, observed) := Observed(claims, map[], around.observing);
    var at := Seen(seen, around.first);
    RegisterMeaning(identity, claims, gone, map[], ANY_FILE, around);
    RegisterFollowsOthersElsewhere(identity, claims, gone, map[], ANY_FILE, around, other);
    ObservedMeaning(claims, map[], around.observing);
    AppliedRemoval(at, key);
    assert key in KeysOf(around.observing) && key in gone && gone[key] == None;
    var result := Registering(identity, claims, gone, map[], ANY_FILE, around).1;
    if result == Registered {
      assert Lookup(at, key) == observed.value[key];
    }
    if result.Broken? {
      var plan := BatchPlan(observed.value, gone);
      assert plan.after == gone;
      CommitMeaning(identity, seen, plan, around.first, around.second, around.readings);
    }
  }

  /**
    With nobody else writing, the claim goes with the files or everything stays, unless a failing rollback is
    reported.
  */
  lemma ForgettingAlone(identity: string -> string, claims: Claims, key: string, around: Surroundings)
    requires KeysOf(around.observing) == {key} && KeysOf(around.readings) == {key}
    requires AllQuiet(around) && UniquePaths(identity, claims)
    ensures var (end, forgotten) := Forgetting(identity, claims, Grid(Some(key)), around);
            && (Succeeded(forgotten) ==> end == claims - {key})
            && (!Succeeded(forgotten) && forgotten != Some(Broken(RollbackIncomplete)) ==> end == claims)
            && (around.first.fault == NoFault ==> Succeeded(forgotten))
  {
    hide Applied, Registering, Observed, Carried;
    var gone: Scope := map[key := None];
    RegisterAlone(identity, claims, gone, map[], ANY_FILE, around);
    RegisterMeaning(identity, claims, gone, map[], ANY_FILE, around);
    CalmObservation(claims, around.observing);
    AppliedRemoval(claims, key);
    assert key in gone && gone[key] == None;
    assert forall k :: k in claims - {key} ==> k in claims && (claims - {key})[k] == claims[k];
  }

  class GridManager {
    const files: FormalFiles
    const store: SharedStore
    const read: Node -> Record

    constructor (files: FormalFiles, store: SharedStore, read: Node -> Record)
      ensures this.files == files && this.store == store && this.read == read
    {
      this.files, this.store, this.read := files, store, read;
    }

    /**
      Deletes a grid's record, image and claim, other manifest writers coming in between. Both files go only
      together with the claim; a failure puts both back, and what becomes of the claims is `Forgetting`'s.
    */
    method Delete(
        recordPath: string, imagePath: string, imageFails: bool, recordFails: bool, around: Surroundings,
        faults: map<string, RestoreFault>)
      returns (result: Deletion)
      requires files.entryOf(recordPath) != files.entryOf(imagePath)
      requires files.entryOf(recordPath) in files.files ==>
                 ReadsItsKey(read(files.files[files.entryOf(recordPath)]), around)
      modifies files, store
      ensures var record, image := files.entryOf(recordPath), files.entryOf(imagePath);
              && (forall entry :: entry != record && entry != image ==>
                  Entry(files.files, entry) == Entry(old(files.files), entry))
              && (result == NotFound <==> record !in old(files.files))
              && (result == NotFound || result == Failed ==>
                    && Entry(files.files, record) == Entry(old(files.files), record)
                    && Entry(files.files, image) == Entry(old(files.files), image))
              && (result == Deleted ==> record !in files.files && image !in files.files)
              && (record in old(files.files) ==>
                    var (claims, forgotten) :=
                      if imageFails || recordFails then (old(store.entries), None)
                      else Forgetting(store.identity, old(store.entries), read(old(files.files)[record]), around);
                    && store.entries == claims
                    && (result == Deleted <==> Succeeded(forgotten))
                    && (result == RollbackReported ==>
                          forgotten == Some(Broken(RollbackIncomplete)) || !FaultFree(faults))
                    && (forgotten == Some(Broken(RollbackIncomplete)) ==> result == RollbackReported))
              && (record !in old(files.files) ==> store.entries == old(store.entries))
    {
      hide Forgetting;
      var record, image := files.entryOf(recordPath), files.entryOf(imagePath);
      if record !in files.files {
        return NotFound;
      }
      var grid := read(files.files[record]);
      var snaps := files.Begin([recordPath, imagePath]);
      PairCovered(files.entryOf, snaps, recordPath, imagePath);
      ghost var before := files.files;
      var forgotten: Option<Registration> := None;
      var ok := files.Unlink(image, imageFails);
      if ok {
        ok := files.Unlink(record, recordFails);
        if ok {
          forgotten := ForgetClaim(grid, around);
        }
      }
      if Succeeded(forgotten) {
        return Deleted;
      }
      var complete := files.RestoreSnapshots(snaps, faults);
      if complete {
        SnapshotsDetermine(before, files.files, snaps, record);
        SnapshotsDetermine(before, files.files, snaps, image);
      }
      result := if complete && forgotten != Some(Broken(RollbackIncomplete)) then Failed else RollbackReported;
    }

    /** Removes the grid's claim in one guarded commit; `None` where no key can be formed. */
    method ForgetClaim(grid: Record, around: Surroundings) returns (forgotten: Option<Registration>)
      requires ReadsItsKey(grid, around)
      modifies store
      ensures (store.entries, forgotten) == Forgetting(store.identity, old(store.entries), grid, around)
    {
      hide Registering;
      match grid {
        case Unreadable => forgotten := Some(NotNeeded);
        case Grid(None) => forgotten := None;
        case Grid(Some(key)) =>
          var result := store.Register(map[key := None], map[], ANY_FILE, around);
          forgotten := Some(result);
      }
    }

    /**
      Reads, changes and writes one record, then runs the commit hook. A failing change, write or hook leaves
      the record as it was, barring a reported restore failure; an unreadable record is skipped only on request.
    */
    method Update(
        recordPath: string, mutate: Node -> Option<Node>, ignoreInvalid: bool, writeFails: bool, hookFails: bool,
        faults: map<string, RestoreFault>)
      returns (result: Change)
      modifies files
      ensures var record := files.entryOf(recordPath);
              var was := Entry(old(files.files), record);
              && (forall entry :: entry != record ==> Entry(files.files, entry) == Entry(old(files.files), entry))
              && (result == Updated ==>
                  was.Some? && mutate(was.value).Some? && Entry(files.files, record) == mutate(was.value))
              && (result == Missed || result == ChangeFailed ==> Entry(files.files, record) == was)
              && (result == Missed <==> was.None? || (read(was.value).Unreadable? && ignoreInvalid))
              && (result == Updated <==>
                    && was.Some? && !read(was.value).Unreadable? && mutate(was.value).Some?
                    && !writeFails && !hookFails)
              && (result == RestoreReported ==> !FaultFree(faults))
    {
      var record := files.entryOf(recordPath);
      var snaps := files.Begin([recordPath]);
      assert [recordPath][0] == recordPath;
      assert Covers(snaps, record) && forall entry :: Covers(snaps, entry) <==> entry == record;
      var was := Entry(files.files, record);
      if was.None? || (read(was.value).Unreadable? && ignoreInvalid) {
        return Missed;
      }
      ghost var before := files.files;
      if !read(was.value).Unreadable? && mutate(was.value).Some? && !writeFails {
        files.Write(record, mutate(was.value).value);
        if !hookFails {
          return Updated;
        }
      }
      var complete := files.RestoreSnapshots(snaps, faults);
      if complete {
        SnapshotsDetermine(before, files.files, snaps, record);
      }
      result := if complete then ChangeFailed else RestoreReported;
    }
  }

  lemma PairCovered(entryOf: string -> string, snaps: seq<Snapshot>, a: string, b: string)
    requires forall entry :: Covers(snaps, entry) <==> exists i :: 0 <= i < |[a, b]| && entryOf([a, b][i]) == entry
    ensures forall entry :: Covers(snaps, entry) <==> entry == entryOf(a) || entry == entryOf(b)
  {
    assert [a, b][0] == a && [a, b][1] == b;
  }

  lemma SnapshotsDetermine(before: Files, after: Files, snaps: seq<Snapshot>, entry: string)
    requires Agrees(before, snaps) && Agrees(after, snaps) && Covers(snaps, entry)
    ensures Entry(after, entry) == Entry(before, entry)
  {
  }
}
