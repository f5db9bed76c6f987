/**
  The planner and the reset as they run: loops over the ledger, and a project whose fields are
  changed in place. Every method is proved equal to the specification the run theorems are about.
*/
module EpisodeWorkspace {
  import opened Prelude
  import opened SourceText
  import opened EpisodeAnchors
  import opened EpisodeLedger
  import opened EpisodePlanner
  import opened EpisodeReset

  // ------------------------------------------------------------ ledger scans

  method FindEffectiveStart(docs: seq<Doc>, entries: seq<Entry>, cursor: Option<Position>)
    returns (r: Result<Position, PlanError>)
    ensures r == EffectiveStart(docs, entries, cursor)
  {
    var last: Option<Position> := None;
    var bestNum: Option<int> := None;
    for i := 0 to |entries|
      invariant last.Some? == bestNum.Some? == LastAnchored(entries[..i]).Some?
      invariant last.Some? ==> LastAnchored(entries[..i]).value == (bestNum.value, last.value)
    {
      assert entries[..i + 1][..i] == entries[..i];
      var e := entries[i];
      var num := NumOf(e);
      if num.None? || e.range.NoRange? {
        continue;
      }
      if e.range.file.Text? && e.range.end.Int? {
        if bestNum.None? || num.value > bestNum.value {
          bestNum := num;
          last := Some(Position(e.range.file.s, e.range.end.i));
        }
      }
    }
    assert entries[..|entries|] == entries;
    var cur: Option<Position> := None;
    if cursor.Some? && cursor.value.offset >= 0 {
      cur := cursor;
    }
    if last.Some? && cur.Some? {
      if cur.value.rel == last.value.rel {
        var offset := if last.value.offset >= cur.value.offset then last.value.offset else cur.value.offset;
        return Ok(Position(last.value.rel, offset));
      }
      var lastIdx, curIdx := IndexOf(docs, last.value.rel), IndexOf(docs, cur.value.rel);
      if lastIdx.None? {
        return Ok(if curIdx.Some? then cur.value else last.value);
      }
      if curIdx.None? || curIdx.value < lastIdx.value {
        return Ok(last.value);
      }
      return Ok(cur.value);
    }
    if last.Some? {
      return Ok(last.value);
    }
    if cur.Some? {
      return Ok(cur.value);
    }
    if docs == [] {
      return Err(NoSources);
    }
    r := Ok(Position(docs[0].rel, 0));
  }

  method RegisterOrphans(entries: seq<Entry>, discovered: seq<int>, onDisk: set<int>) returns (r: seq<Entry>)
    requires forall i, j :: 0 <= i < j < |discovered| ==> discovered[i] < discovered[j]
    ensures r == RegisterOrphanEpisodeEntries(entries, discovered, onDisk)
  {
    hide StableSort, KnownNums, NumOf, AllNumbered;
    r := entries;
    var known: set<int> := {};
    NobodyKnown();
    for i := 0 to |entries|
      invariant known == KnownNums(entries[..i])
    {
      assert entries[..i + 1] == entries[..i] + [entries[i]];
      KnownNumsSnoc(entries[..i], entries[i]);
      if NumOf(entries[i]).Some? {
        known := known + {NumOf(entries[i]).value};
      }
    }
    assert entries[..|entries|] == entries;
    ghost var listed := known;
    for k := 0 to |discovered|
      invariant r + OrphanEntries(listed, discovered[k..], onDisk)
          == entries + OrphanEntries(listed, discovered, onDisk)
      invariant known >= listed
      invariant forall n :: n in known && n !in listed ==> n in discovered[..k]
    {
      var num := discovered[k];
      NextOrphan(listed, discovered, k, onDisk);
      assert num !in discovered[..k];
      if num !in known {
        r := r + [Entry(Int(num), NoRange, if num in onDisk then Consumed else Planned)];
        known := known + {num};
      }
    }
    assert discovered[|discovered|..] == [] && r + [] == r;
    if AllNumbered(r) {
      r := StableSort(r);
    }
  }

  lemma NobodyKnown()
    ensures KnownNums([]) == {}
  {
  }

  lemma NextOrphan(known: set<int>, discovered: seq<int>, k: nat, onDisk: set<int>)
    requires k < |discovered|
    ensures OrphanEntries(known, discovered[k..], onDisk)
         == (if discovered[k] in known then []
             else [Entry(Int(discovered[k]), NoRange, if discovered[k] in onDisk then Consumed else Planned)])
            + OrphanEntries(known, discovered[k + 1..], onDisk)
  {
    assert discovered[k..][0] == discovered[k] && discovered[k..][1..] == discovered[k + 1..];
  }

  // ---------------------------------------------------------------- drafting

  /** Model calls until one passes, three at most. */
  method RequestValidatedDrafts(
      nfc: string -> string, window: string, attempts: seq<Attempt>, snap: bool, maxEpisodes: nat)
    returns (r: Option<seq<nat>>)
    requires maxEpisodes >= 1
    ensures r == FirstAccepted(nfc, window, attempts, MAX_PLAN_ATTEMPTS, snap, maxEpisodes)
  {
    var attempt := 0;
    while attempt < MAX_PLAN_ATTEMPTS && attempt < |attempts|
      invariant 0 <= attempt <= MAX_PLAN_ATTEMPTS && attempt <= |attempts|
      invariant FirstAccepted(nfc, window, attempts, MAX_PLAN_ATTEMPTS, snap, maxEpisodes)
             == FirstAccepted(nfc, window, attempts[attempt..], MAX_PLAN_ATTEMPTS - attempt, snap, maxEpisodes)
    {
      var a := attempts[attempt];
      assert attempts[attempt..][0] == a && attempts[attempt..][1..] == attempts[attempt + 1..];
      if MeetsSchema(a) {
        var anchors := a.anchors;
        if |anchors| > maxEpisodes {
          anchors := anchors[..maxEpisodes];
        }
        var resolution := ResolveBoundaries(nfc, window, anchors, snap);
        if resolution.Accepted? {
          return Some(resolution.ends);
        }
      }
      attempt := attempt + 1;
    }
    r := None;
  }

  /** The walk over sources with nothing left in them. */
  method SkipExhaustedSources(docs: seq<Doc>, from: nat, at: nat) returns (place: Option<(nat, nat)>)
    requires from < |docs| && at <= |docs[from].text|
    ensures place == SkipBlank(docs, from, at)
    ensures place.Some? ==> place.value.0 < |docs| && place.value.1 <= |docs[place.value.0].text|
  {
    var i, start := from, at;
    while Blank(docs[i].text[start..])
      invariant i < |docs| && 0 <= start <= |docs[i].text|
      invariant SkipBlank(docs, i, start) == SkipBlank(docs, from, at)
      decreases |docs| - i
    {
      if i + 1 >= |docs| {
        return None;
      }
      i, start := i + 1, 0;
    }
    place := Some((i, start));
  }

  // --------------------------------------------------------- reset validation

  /** The ledger by number, or nothing when its shape is not clean. */
  method IndexLedger(entries: seq<Entry>) returns (byNum: Option<map<int, Entry>>)
    ensures byNum.Some? <==> CleanShape(entries)
    ensures byNum.Some? ==> forall n :: n in byNum.value <==> n in KnownNums(entries)
    ensures byNum.Some? ==> forall n :: n in byNum.value ==> EntryFor(entries, n) == Some(byNum.value[n])
  {
    hide EntryFor, KnownNums, CleanShape, Indexed;
    var m: map<int, Entry> := map[];
    NothingIndexed(entries);
    for i := 0 to |entries|
      invariant Indexed(entries, i, m)
    {
      var num := NumOf(entries[i]);
      if num.None? || num.value < 1 || num.value in m {
        NotClean(entries, i, m);
        return None;
      }
      OneMoreIndexed(entries, i, m);
      m := m[num.value := entries[i]];
    }
    IndexedAll(entries, m);
    IndexedLedgerIsEntryFor(entries, m);
    byNum := Some(m);
  }

  /** The first `k` entries are in the index, each under its own positive number. */
  ghost predicate Indexed(entries: seq<Entry>, k: nat, m: map<int, Entry>)
    requires k <= |entries|
  {
    && (forall i :: 0 <= i < k ==>
          NumOf(entries[i]).Some? && NumOf(entries[i]).value >= 1
          && NumOf(entries[i]).value in m && m[NumOf(entries[i]).value] == entries[i])
    && (forall n :: n in m ==> m[n] in entries[..k] && NumOf(m[n]) == Some(n))
    && (forall i, j :: 0 <= i < j < k ==> NumOf(entries[i]) != NumOf(entries[j]))
  }

  lemma NothingIndexed(entries: seq<Entry>)
    ensures Indexed(entries, 0, map[])
  {
  }

  lemma OneMoreIndexed(entries: seq<Entry>, k: nat, m: map<int, Entry>)
    requires k < |entries| && Indexed(entries, k, m)
    requires NumOf(entries[k]).Some? && NumOf(entries[k]).value >= 1 && NumOf(entries[k]).value !in m
    ensures Indexed(entries, k + 1, m[NumOf(entries[k]).value := entries[k]])
  {
    hide NumOf;
    assert entries[..k + 1] == entries[..k] + [entries[k]];
  }

  lemma NotClean(entries: seq<Entry>, k: nat, m: map<int, Entry>)
    requires k < |entries| && Indexed(entries, k, m)
    requires NumOf(entries[k]).None? || NumOf(entries[k]).value < 1 || NumOf(entries[k]).value in m
    ensures !CleanShape(entries)
  {
    if NumOf(entries[k]).Some? && NumOf(entries[k]).value in m {
      var e := m[NumOf(entries[k]).value];
      assert e in entries[..k] && NumOf(e) == NumOf(entries[k]);
      var i :| 0 <= i < k && entries[..k][i] == e;
      assert NumOf(entries[i]) == NumOf(entries[k]);
    }
  }

  lemma IndexedAll(entries: seq<Entry>, m: map<int, Entry>)
    requires Indexed(entries, |entries|, m)
    ensures CleanShape(entries)
    ensures forall k :: 0 <= k < |entries| ==>
              NumOf(entries[k]).Some? && NumOf(entries[k]).value in m && m[NumOf(entries[k]).value] == entries[k]
    ensures forall n :: n in m ==> m[n] in entries && NumOf(m[n]) == Some(n)
  {
    hide NumOf;
    assert entries[..|entries|] == entries;
  }

  lemma IndexedLedgerIsEntryFor(entries: seq<Entry>, m: map<int, Entry>)
    requires forall k :: 0 <= k < |entries| ==>
               NumOf(entries[k]).Some? && NumOf(entries[k]).value in m && m[NumOf(entries[k]).value] == entries[k]
    requires forall n :: n in m ==> m[n] in entries && NumOf(m[n]) == Some(n)
    ensures forall n :: n in m <==> n in KnownNums(entries)
    ensures forall n :: n in m ==> EntryFor(entries, n) == Some(m[n])
  {
    forall n | n in KnownNums(entries) ensures n in m && EntryFor(entries, n) == Some(m[n]) {
      var e := EntryFor(entries, n).value;
      var k :| 0 <= k < |entries| && entries[k] == e;
    }
  }

  /** Whether 1..from-1 are all numbered; only numbers that exist are looked at. */
  method NoGapBefore(nums: set<int>, from: int) returns (ok: bool)
    requires from >= 1 && forall n :: n in nums ==> n >= 1
    ensures ok <==> forall n :: 1 <= n < from ==> n in nums
  {
    var below := Ascending(set n | n in nums && n < from);
    var expected := 1;
    var i := 0;
    while i < |below| && below[i] == expected
      invariant 0 <= i <= |below| && expected == i + 1
      invariant forall k :: 0 <= k < i ==> below[k] == k + 1
    {
      assert below[i] in below;
      expected := expected + 1;
      i := i + 1;
    }
    ok := expected == from;
    if i > 0 {
      assert below[i - 1] in below;
    }
    if ok {
      forall n | 1 <= n < from ensures n in nums {
        assert below[n - 1] in below;
      }
    } else {
      assert expected < from;
      assert i < |below| ==> below[i] in below;
      assert i < |below| ==> (i > 0 ==> below[i - 1] < below[i]) && below[i] > expected;
      assert forall k :: 0 <= k < |below| ==> below[k] != expected;
      assert expected !in below && expected !in nums;
    }
  }

  /** The continuity walk over the retained episodes; returns the end of the last one. */
  method WalkRetained(docs: seq<Doc>, ghost entries: seq<Entry>, byNum: map<int, Entry>, from: int)
    returns (at: Option<Position>)
    requires DistinctRels(docs) && from >= 2
    requires forall n :: 1 <= n < from ==> n in byNum && EntryFor(entries, n) == Some(byNum[n])
    ensures var kept := RetainedCoords(entries, from - 1);
            && (at.Some? <==> kept.Some? && Chain(docs, kept.value))
            && (at.Some? ==> |kept.value| == from - 1
                             && at.value == Position(kept.value[from - 2].rel, kept.value[from - 2].end))
  {
    hide Chain, Blank, AllBlank;
    var prev: Option<Coords> := None;
    EmptyChain(docs);
    for num := 1 to from
      invariant var kept := RetainedCoords(entries, num - 1);
                if kept.None? then prev.None? && num > 1
                else |kept.value| == num - 1 && Chain(docs, kept.value)
                     && (if num == 1 then prev.None? else prev == Some(kept.value[num - 2]))
    {
      ghost var kept := RetainedCoords(entries, num - 1);
      ghost var all := RetainedCoords(entries, from - 1);
      var coords := ParseSourceRange(byNum[num]);
      if coords.None? {
        prev := None;
        continue;
      }
      var c := coords.value;
      assert kept.Some? ==> RetainedCoords(entries, num) == Some(kept.value + [c]);
      RetainedCoordsExtend(docs, entries, num, from - 1);
      if !InBounds(docs, c) {
        return None;
      }
      if prev.None? {
        if num != 1 {
          return None;
        }
        if !StartsTheSources(docs, c) {
          return None;
        }
      } else {
        ChainInBounds(docs, kept.value);
        var follows := CheckFollows(docs, prev.value, c);
        if !follows {
          return None;
        }
      }
      ChainSnoc(docs, kept.value, c);
      prev := Some(c);
    }
    if prev.None? {
      return None;
    }
    at := Some(Position(prev.value.rel, prev.value.end));
  }

  lemma EmptyChain(docs: seq<Doc>)
    ensures Chain(docs, [])
  {
  }

  /** Same file: no gap. Other file: a later one from its start, everything between exhausted. */
  method CheckFollows(docs: seq<Doc>, a: Coords, b: Coords) returns (ok: bool)
    requires DistinctRels(docs) && InBounds(docs, a) && InBounds(docs, b)
    ensures ok <==> Follows(docs, a, b)
  {
    var expectedStart := a.end;
    if a.rel != b.rel {
      var i, j := IndexOf(docs, a.rel).value, IndexOf(docs, b.rel).value;
      if j <= i || !Blank(docs[i].text[a.end..]) {
        return false;
      }
      for k := i + 1 to j
        invariant AllBlank(docs, i + 1, k)
      {
        if !Blank(docs[k].text) {
          return false;
        }
      }
      expectedStart := 0;
    }
    ok := b.start == expectedStart;
  }

  /** What the first `k` retained episodes lack, all of them lack. */
  lemma {:induction false} RetainedCoordsExtend(docs: seq<Doc>, entries: seq<Entry>, k: nat, n: nat)
    requires k <= n
    ensures RetainedCoords(entries, n).Some? ==>
              RetainedCoords(entries, k).Some?
              && |RetainedCoords(entries, k).value| == k
              && RetainedCoords(entries, k).value <= RetainedCoords(entries, n).value
    ensures RetainedCoords(entries, n).Some? && Chain(docs, RetainedCoords(entries, n).value) ==>
              Chain(docs, RetainedCoords(entries, k).value)
    decreases n
  {
    if RetainedCoords(entries, n).Some? {
      var all := RetainedCoords(entries, n).value;
      if k < n {
        RetainedCoordsExtend(docs, entries, k, n - 1);
        RetainedCoordsLength(entries, n - 1);
        if Chain(docs, all) {
          ChainPrefix(docs, all, n - 1);
          assert all[..n - 1] == RetainedCoords(entries, n - 1).value;
        }
      } else {
        RetainedCoordsLength(entries, n);
      }
    }
  }

  method ResolvePartialResetCursor(docs: seq<Doc>, project: Project, from: int) returns (at: Option<Position>)
    requires DistinctRels(docs) && from > 1
    ensures at == PartialResetCursor(docs, project, from)
    ensures at.Some? ==> project.episodes.Listed?
  {
    hide Chain, CleanShape, MismatchedFingerprints, EntryFor;
    if project.episodes.NotAList? {
      return None;
    }
    var entries := project.episodes.entries;
    var byNum := IndexLedger(entries);
    if byNum.None? {
      return None;
    }
    if from !in byNum.value {
      return None;
    }
    CleanNumbersArePositive(entries);
    var gapFree := NoGapBefore(byNum.value.Keys, from);
    if !gapFree {
      RetainedNeedsEveryNumber(entries, from - 1);
      return None;
    }
    if MismatchedFingerprints(project.prints, docs) != {} {
      return None;
    }
    at := WalkRetained(docs, entries, byNum.value, from);
  }

  lemma CleanNumbersArePositive(entries: seq<Entry>)
    requires CleanShape(entries)
    ensures forall n :: n in KnownNums(entries) ==> n >= 1
  {
  }

  lemma {:induction false} RetainedNeedsEveryNumber(entries: seq<Entry>, k: nat)
    ensures RetainedCoords(entries, k).Some? ==> forall n :: 1 <= n <= k ==> n in KnownNums(entries)
  {
    if k > 0 {
      RetainedNeedsEveryNumber(entries, k - 1);
      if EntryFor(entries, k).Some? {
        var e := EntryFor(entries, k).value;
        var i :| 0 <= i < |entries| && entries[i] == e;
      }
    }
  }

  /** Consumed numbers in scope, from the ledger and from the products on disk. */
  method ScanConsumed(project: Project, from: int, onDisk: set<int>) returns (consumed: set<int>)
    ensures consumed == ConsumedNums(project, from, onDisk)
  {
    var entries := if project.episodes.Listed? then project.episodes.entries else [];
    consumed := set n | n in onDisk && InScope(from, n);
    ghost var products := consumed;
    for i := 0 to |entries|
      invariant consumed == products + set k | 0 <= k < i && NumOf(entries[k]).Some? && entries[k].status == Consumed
                                              && InScope(from, NumOf(entries[k]).value) :: NumOf(entries[k]).value
    {
      var num := NumOf(entries[i]);
      if num.Some? && entries[i].status == Consumed && InScope(from, num.value) {
        consumed := consumed + {num.value};
      }
    }
  }

  // ------------------------------------------------------------- derived files

  function Written(writes: seq<(int, string)>): map<int, string> {
    if writes == [] then map[]
    else Written(writes[..|writes| - 1])[writes[|writes| - 1].0 := writes[|writes| - 1].1]
  }

  /** Once a range fails validation, nothing after it is reached. */
  lemma {:induction false} FirstInvalidRangeDecides(docs: seq<Doc>, entries: seq<Entry>, k: nat)
    requires k <= |entries| && DerivedWrites(docs, entries[..k]).Err?
    ensures DerivedWrites(docs, entries) == DerivedWrites(docs, entries[..k])
    decreases |entries|
  {
    if k < |entries| {
      assert entries[..|entries| - 1][..k] == entries[..k];
      FirstInvalidRangeDecides(docs, entries[..|entries| - 1], k);
    } else {
      assert entries[..k] == entries;
    }
  }

  /** The first phase: every range validated and its text cut, before anything is written. */
  method BuildWrites(docs: seq<Doc>, entries: seq<Entry>)
    returns (r: Result<seq<(int, string)>, PlanError>, keep: set<int>)
    ensures r.Err? ==> DerivedWrites(docs, entries) == Err(r.error)
    ensures r.Ok? ==> DerivedWrites(docs, entries) == Ok(Written(r.value)) && keep == KnownNums(entries)
  {
    keep := {};
    var writes: seq<(int, string)> := [];
    for i := 0 to |entries|
      invariant keep == KnownNums(entries[..i])
      invariant DerivedWrites(docs, entries[..i]) == Ok(Written(writes))
    {
      var e := entries[i];
      assert entries[..i + 1] == entries[..i] + [e] && entries[..i + 1][..i] == entries[..i];
      KnownNumsSnoc(entries[..i], e);
      var num := NumOf(e);
      if num.None? {
        continue;
      }
      keep := keep + {num.value};
      var coords := ParseSourceRange(e);
      if coords.None? {
        FirstInvalidRangeDecides(docs, entries, i + 1);
        return Err(RangeInvalid(num.value)), keep;
      }
      var doc := IndexOf(docs, coords.value.rel);
      if doc.None? {
        FirstInvalidRangeDecides(docs, entries, i + 1);
        return Err(SourceMissing(coords.value.rel)), keep;
      }
      var text := docs[doc.value].text;
      if !(0 <= coords.value.start <= coords.value.end <= |text|) {
        FirstInvalidRangeDecides(docs, entries, i + 1);
        return Err(RangeInvalid(num.value)), keep;
      }
      ghost var earlier := writes;
      writes := writes + [(num.value, text[coords.value.start..coords.value.end])];
      assert writes[..|writes| - 1] == earlier;
    }
    assert entries[..|entries|] == entries;
    r := Ok(writes);
  }

  // ------------------------------------------------------------------ project

  /** A project directory: the ledger's fields in `project.json` and the derived files under `source/`. */
  class Workspace {
    const docs: seq<Doc>
    var project: Project
    var derived: map<int, string>

    function Contents(): State
      reads this
    {
      State(project, derived)
    }

    constructor (docs: seq<Doc>)
      ensures this.docs == docs && Contents() == State(Project(Listed([]), None, None), map[])
    {
      this.docs := docs;
      project, derived := Project(Listed([]), None, None), map[];
    }

    /** The checks before the model call. */
    method CheckGate(onDisk: set<int>) returns (r: Result<Position, PlanError>, healed: seq<Entry>)
      ensures r == Gate(docs, project, DiscoveredNums(derived), onDisk)
      ensures r.Ok? ==>
                && project.episodes.Listed?
                && healed == RegisterOrphanEpisodeEntries(project.episodes.entries, DiscoveredNums(derived), onDisk)
    {
      healed := [];
      if project.episodes.NotAList? {
        return Err(MalformedLedger), healed;
      }
      healed := RegisterOrphans(project.episodes.entries, DiscoveredNums(derived), onDisk);
      var missing := EpisodesWithoutSourceRange(healed);
      if missing != {} {
        return Err(MissingSourceRange(missing)), healed;
      }
      var changed := MismatchedFingerprints(project.prints, docs);
      if changed != {} {
        return Err(SourceChanged(changed)), healed;
      }
      r := FindEffectiveStart(docs, healed, project.cursor);
    }

    /** Everything a planning call does before its commit; nothing is written. */
    method Prepare(
        nfc: string -> string, onDisk: set<int>, windowSetting: Value, maxSetting: Value, attempts: seq<Attempt>)
      returns (p: Preparation)
      ensures p == PreparationOf(nfc, docs, Contents(), onDisk, windowSetting, maxSetting, attempts)
    {
      hide Gate, SkipBlank, FirstAccepted;
      var gate, _ := CheckGate(onDisk);
      if gate.Err? {
        return Refused(gate.error);
      }
      var startRef := gate.value;
      var i := IndexOf(docs, startRef.rel);
      if i.None? {
        return Refused(SourceMissing(startRef.rel));
      }
      if !(0 <= startRef.offset <= |docs[i.value].text|) {
        return Refused(StartOutOfBounds);
      }
      var place := SkipExhaustedSources(docs, i.value, startRef.offset);
      if place.None? {
        return Exhausted;
      }
      var (j, start) := place.value;
      var text := docs[j].text;
      var windowEnd := WindowEnd(|text|, start, SettingInt(windowSetting, DEFAULT_PLANNING_WINDOW_CHARS));
      var windowIsFinal := windowEnd >= |text|;
      var ends := RequestValidatedDrafts(
        nfc, text[start..windowEnd], attempts, windowIsFinal, SettingInt(maxSetting, DEFAULT_PLANNING_MAX_EPISODES));
      if ends.None? {
        return Refused(DraftsRejected);
      }
      p := Ready(PlanRequest(startRef, docs[j].rel, start, ends.value, windowIsFinal, AllRecorded(docs)));
    }

    /**
      The early return of an exhausted plan. A call that read digests leaves them; one that read none records them
      under the lock, unless a source no longer is what was recorded meanwhile or what the call itself had read.
    */
    method BackfillFingerprints(readDigests: bool, used: Recorded) returns (error: Option<PlanError>)
      modifies this`project
      ensures if readDigests then error.None? && Contents() == old(Contents())
              else
                var after := BackfillOf(docs, old(Contents()), used);
                if after.Ok? then error.None? && Contents() == after.value
                else error == Some(after.error) && Contents() == old(Contents())
    {
      if readDigests {
        return None;
      }
      var changed := MismatchedFingerprints(project.prints, docs);
      if changed != {} {
        return Some(SourceChanged(changed));
      }
      changed := MismatchedFingerprints(Some(used), docs);
      if changed != {} {
        return Some(SourceChanged(changed));
      }
      project := project.(prints := Some(AllRecorded(docs)));
      error := None;
    }

    /** The checks under the lock, in their own order. */
    method RecheckCommit(req: PlanRequest, onDisk: set<int>) returns (refused: Option<PlanError>, healed: seq<Entry>)
      ensures refused == CommitCheck(docs, project, DiscoveredNums(derived), onDisk, req.startRef, req.used)
      ensures refused.None? ==>
                && project.episodes.Listed?
                && healed == RegisterOrphanEpisodeEntries(project.episodes.entries, DiscoveredNums(derived), onDisk)
    {
      healed := [];
      if project.episodes.NotAList? {
        return Some(MalformedLedger), healed;
      }
      healed := RegisterOrphans(project.episodes.entries, DiscoveredNums(derived), onDisk);
      var missing := EpisodesWithoutSourceRange(healed);
      if missing != {} {
        return Some(MissingSourceRange(missing)), healed;
      }
      var start := FindEffectiveStart(docs, healed, project.cursor);
      if start.Err? {
        return Some(start.error), healed;
      }
      if start.value != req.startRef {
        return Some(PlanningConflict), healed;
      }
      var changed := MismatchedFingerprints(project.prints, docs);
      if changed != {} {
        return Some(SourceChanged(changed)), healed;
      }
      changed := MismatchedFingerprints(Some(req.used), docs);
      refused := if changed != {} then Some(SourceChanged(changed)) else None;
    }

    /** Two phases: validate everything, then write, then sweep what the ledger does not list. */
    method ReconcileDerivedFiles(entries: seq<Entry>) returns (error: Option<PlanError>)
      modifies this`derived
      ensures var after := Reconciled(docs, entries, old(derived));
              if after.Ok? then error.None? && derived == after.value
              else error == Some(after.error) && derived == old(derived)
    {
      var writes, keep := BuildWrites(docs, entries);
      if writes.Err? {
        return Some(writes.error);
      }
      WriteAll(writes.value);
      WritesAreListed(docs, entries);
      SweepUnlisted(keep);
      error := None;
    }

    method SweepUnlisted(keep: set<int>)
      modifies this`derived
      ensures derived == map n | n in old(derived) && (n < 0 || n in keep) :: old(derived)[n]
    {
      ghost var swept := derived;
      var leftovers := set n | n in derived && n >= 0 && n !in keep;
      while leftovers != {}
        invariant forall n :: n in leftovers ==> n in derived && n >= 0 && n !in keep
        invariant derived == map n | n in swept && (n < 0 || n in keep || n in leftovers) :: swept[n]
        decreases leftovers
      {
        NonEmptyHasElement(leftovers);
        var n :| n in leftovers;
        leftovers := leftovers - {n};
        derived := derived - {n};
      }
    }

    method WriteAll(writes: seq<(int, string)>)
      modifies this`derived
      ensures derived == old(derived) + Written(writes)
    {
      for i := 0 to |writes|
        invariant derived == old(derived) + Written(writes[..i])
      {
        assert writes[..i + 1][..i] == writes[..i];
        derived := derived[writes[i].0 := writes[i].1];
      }
      assert writes[..|writes|] == writes;
    }

    /** The commit under the project lock: it happens as a whole or not at all. */
    method Commit(req: PlanRequest, onDisk: set<int>) returns (r: Result<bool, PlanError>)
      requires req.ends != []
      modifies this
      ensures var after := CommitOf(docs, old(Contents()), req, onDisk);
              if after.Ok? then r == Ok(after.value.1) && Contents() == after.value.0
              else r == Err(after.error) && Contents() == old(Contents())
    {
      hide CommitCheck, RegisterOrphanEpisodeEntries, Reconciled, UsedUp, LargestNum, NonNull, SortEpisodesIfPossible;
      hide NewEntries, AllRecorded, DiscoveredNums;
      var refused, healed := RecheckCommit(req, onDisk);
      if refused.Some? {
        return Err(refused.value);
      }
      var episodes := NonNull(healed);
      var nextNum := LargestNum(episodes) + 1;
      var added := AppendEpisodes(req, nextNum, onDisk);
      episodes := SortEpisodesIfPossible(episodes + added);
      var failed := ReconcileDerivedFiles(episodes);
      if failed.Some? {
        return Err(failed.value);
      }
      var end := req.start + req.ends[|req.ends| - 1];
      project := Project(Listed(episodes), Some(Position(req.rel, end)), Some(AllRecorded(docs)));
      r := Ok(UsedUp(docs, req, end));
    }

    method CommitReset(from: int, confirm: bool, foreseen: set<int>, onDisk: set<int>) returns (outcome: ResetOutcome)
      requires DistinctRels(docs)
      modifies this
      ensures outcome == ResetOf(docs, old(Contents()), from, confirm, foreseen, onDisk)
      ensures Contents() == if outcome.ResetDone? then outcome.st else old(Contents())
    {
      hide ConsumedNums, Resettable, Retained, StableSort;
      if from < 1 {
        return ResetRefused;
      }
      if foreseen != {} && !confirm {
        return NeedsConfirmation(foreseen);
      }
      var cursor: Option<Position> := None;
      if from > 1 {
        cursor := ResolvePartialResetCursor(docs, project, from);
        if cursor.None? {
          return ResetRefused;
        }
      }
      var consumed := ScanConsumed(project, from, onDisk);
      if !(consumed <= foreseen) {
        return ResetConflict;
      }
      if from > 1 {
        project := Project(Listed(StableSort(Retained(project.episodes.entries, from))), cursor, project.prints);
      } else {
        project := Project(Listed([]), None, None);
      }
      RemoveInScope(from);
      outcome := ResetDone(Contents());
    }

    method RemoveInScope(from: int)
      modifies this`derived
      ensures derived == map n | n in old(derived) && !(n >= 0 && InScope(from, n)) :: old(derived)[n]
    {
      var targets := set n | n in derived && n >= 0 && InScope(from, n);
      while targets != {}
        invariant forall n :: n in targets ==> n in old(derived) && n >= 0 && InScope(from, n)
        invariant derived ==
          map n | n in old(derived) && (n in targets || !(n >= 0 && InScope(from, n))) :: old(derived)[n]
        decreases targets
      {
        NonEmptyHasElement(targets);
        var n :| n in targets;
        targets := targets - {n};
        derived := derived - {n};
      }
    }
  }

  lemma {:induction false} WritesAreListed(docs: seq<Doc>, entries: seq<Entry>)
    requires DerivedWrites(docs, entries).Ok?
    ensures forall n :: n in DerivedWrites(docs, entries).value ==> n in KnownNums(entries)
  {
    if entries != [] {
      var front, e := entries[..|entries| - 1], entries[|entries| - 1];
      WritesAreListed(docs, front);
      KnownNumsSnoc(front, e);
      assert entries == front + [e];
    }
  }

  method AppendEpisodes(req: PlanRequest, nextNum: int, onDisk: set<int>) returns (added: seq<Entry>)
    requires req.ends != []
    ensures added == NewEntries(req, nextNum, onDisk, |req.ends|)
  {
    added := [];
    var prev := req.start;
    for k := 0 to |req.ends|
      invariant added == NewEntries(req, nextNum, onDisk, k)
      invariant prev == req.start + (if k == 0 then 0 else req.ends[k - 1])
    {
      var num := nextNum + k;
      var absEnd := req.start + req.ends[k];
      added := added + [Entry(Int(num), Fields(Text(req.rel), Int(prev), Int(absEnd)),
                              if num in onDisk then Stale else Planned)];
      prev := absEnd;
    }
  }
}
