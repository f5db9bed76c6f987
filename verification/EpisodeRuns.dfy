/**
  Every run of planning calls and resets over a fixed list of sources keeps the ledger well planned,
  whatever the model answers and however calls overlap between reading and committing.
*/
module EpisodeRuns {
  import opened Prelude
  import opened SourceText
  import opened EpisodeAnchors
  import opened EpisodeLedger
  import opened EpisodePlanner
  import opened EpisodeReset

  // ---------------------------------------------------- well-planned ledgers

  /** Episodes are numbered 1..n in order, each with coordinates. */
  predicate Canonical(entries: seq<Entry>) {
    forall i :: 0 <= i < |entries| ==>
      entries[i].Entry? && entries[i].episode == Int(i + 1) && ParseSourceRange(entries[i]).Some?
  }

  function CoordsOf(entries: seq<Entry>): (cs: seq<Coords>)
    requires Canonical(entries)
    ensures |cs| == |entries|
  {
    seq(|entries|, i requires 0 <= i < |entries| => ParseSourceRange(entries[i]).value)
  }

  function CursorAt(cs: seq<Coords>): Option<Position> {
    if cs == [] then None else Some(Position(cs[|cs| - 1].rel, cs[|cs| - 1].end))
  }

  /** The ledger, cursor, fingerprints and derived files that planning is meant to maintain. */
  ghost predicate WellPlanned(docs: seq<Doc>, st: State) {
    && st.project.episodes.Listed?
    && var entries := st.project.episodes.entries;
    && Canonical(entries)
    && var cs := CoordsOf(entries);
    && Chain(docs, cs)
    && st.project.cursor == CursorAt(cs)
    && (st.project.prints.None? || st.project.prints == Some(AllRecorded(docs)))
    && DerivesExactly(docs, cs, st.derived)
  }

  /** There is one derived file per episode and it holds that episode's slice. */
  ghost predicate DerivesExactly(docs: seq<Doc>, cs: seq<Coords>, derived: map<int, string>)
    requires Chain(docs, cs)
  {
    ChainInBounds(docs, cs);
    && (forall n :: n in derived <==> 1 <= n <= |cs|)
    && (forall n :: 1 <= n <= |cs| ==> derived[n] == Slice(docs, cs[n - 1]))
  }

  function PlannedCoords(st: State): seq<Coords>
    requires st.project.episodes.Listed? && Canonical(st.project.episodes.entries)
  {
    CoordsOf(st.project.episodes.entries)
  }

  lemma CanonicalIsSorted(entries: seq<Entry>)
    requires Canonical(entries)
    ensures SortEpisodesIfPossible(entries) == entries
    ensures StableSort(entries) == entries
    ensures forall n :: n in KnownNums(entries) <==> 1 <= n <= |entries|
    ensures EpisodesWithoutSourceRange(entries) == {}
  {
    assert forall i :: 0 <= i < |entries| ==> NumOf(entries[i]) == Some(i + 1);
    StableSortOrders(entries);
    forall n | 1 <= n <= |entries| ensures n in KnownNums(entries) {
      assert NumOf(entries[n - 1]) == Some(n);
    }
  }

  lemma {:induction false} CanonicalScans(entries: seq<Entry>)
    requires Canonical(entries)
    ensures NonNull(entries) == entries
    ensures LargestNum(entries) == |entries|
  {
    if entries != [] {
      var n := |entries| - 1;
      CanonicalScans(entries[..n]);
      assert NumOf(entries[n]) == Some(n + 1);
      assert entries == entries[..n] + [entries[n]];
    }
  }

  lemma {:induction false} LastAnchoredOfCanonical(entries: seq<Entry>)
    requires Canonical(entries) && entries != []
    ensures var c := CoordsOf(entries)[|entries| - 1];
            LastAnchored(entries) == Some((|entries|, Position(c.rel, c.end)))
  {
    var n := |entries| - 1;
    assert AnchorOf(entries[n]).value.0 == n + 1;
    if n > 0 {
      LastAnchoredOfCanonical(entries[..n]);
    }
  }

  /** In a well-planned state nothing stops planning, and it resumes at the last episode's end. */
  lemma GateOfWellPlanned(docs: seq<Doc>, st: State, onDisk: set<int>)
    requires DistinctRels(docs) && WellPlanned(docs, st)
    ensures var entries := st.project.episodes.entries;
            && RegisterOrphanEpisodeEntries(entries, DiscoveredNums(st.derived), onDisk) == entries
            && Gate(docs, st.project, DiscoveredNums(st.derived), onDisk) ==
               if entries != [] then Ok(CursorAt(CoordsOf(entries)).value)
               else if docs == [] then Err(NoSources)
               else Ok(Position(docs[0].rel, 0))
  {
    hide Chain, DerivesExactly, MismatchedFingerprints, RegisterOrphanEpisodeEntries, SortEpisodesIfPossible;
    hide LastAnchored, EpisodesWithoutSourceRange, KnownNums;
    var entries := st.project.episodes.entries;
    CanonicalIsSorted(entries);
    if entries != [] {
      LastAnchoredOfCanonical(entries);
      LastEndIsUsable(docs, CoordsOf(entries));
    } else {
      NothingAnchored();
    }
    NothingToRegister(docs, st, onDisk);
    NothingMismatched(docs, st);
  }

  lemma NothingAnchored()
    ensures LastAnchored([]).None?
  {
  }

  lemma LastEndIsUsable(docs: seq<Doc>, cs: seq<Coords>)
    requires Chain(docs, cs) && cs != []
    ensures UsableCursor(CursorAt(cs)) == CursorAt(cs)
  {
    hide Chain;
    ChainInBounds(docs, cs);
  }

  lemma NothingToRegister(docs: seq<Doc>, st: State, onDisk: set<int>)
    requires WellPlanned(docs, st)
    ensures var entries := st.project.episodes.entries;
            RegisterOrphanEpisodeEntries(entries, DiscoveredNums(st.derived), onDisk) == entries
  {
    hide Chain, SortEpisodesIfPossible, KnownNums, CoordsOf;
    var entries := st.project.episodes.entries;
    CanonicalIsSorted(entries);
    var discovered := DiscoveredNums(st.derived);
    assert forall n :: n in discovered ==> n in KnownNums(entries);
    NoOrphansWhenAllKnown(KnownNums(entries), discovered, onDisk);
    assert entries + [] == entries;
  }

  // ----------------------------------------------------------------- requests

  /** A prepared request: its place was reached from its start over blanks only, and its ends cut forward from there. */
  ghost predicate RequestOk(docs: seq<Doc>, req: PlanRequest) {
    var i := IndexOf(docs, req.startRef.rel);
    && i.Some?
    && 0 <= req.startRef.offset <= |docs[i.value].text|
    && var place := SkipBlank(docs, i.value, req.startRef.offset);
    && place.Some?
    && place.value.0 < |docs|
    && req.rel == docs[place.value.0].rel && req.start == place.value.1
    && req.ends != [] && MismatchedFingerprints(Some(req.used), docs) == {}
    && StrictlyIncreasingFrom(0, req.ends)
    && forall k :: 0 <= k < |req.ends| ==> req.start + req.ends[k] <= |docs[place.value.0].text|
  }

  lemma PreparedRequestOk(
      nfc: string -> string, docs: seq<Doc>, st: State, onDisk: set<int>,
      windowSetting: Value, maxSetting: Value, attempts: seq<Attempt>)
    requires DistinctRels(docs)
    requires PreparationOf(nfc, docs, st, onDisk, windowSetting, maxSetting, attempts).Ready?
    ensures RequestOk(docs, PreparationOf(nfc, docs, st, onDisk, windowSetting, maxSetting, attempts).request)
  {
    hide Gate, AllRecorded, FirstAccepted, Blank, AllBlank, MismatchedFingerprints;
    FreshRecordMatches(docs);
    var startRef := Gate(docs, st.project, DiscoveredNums(st.derived), onDisk).value;
    var i := IndexOf(docs, startRef.rel).value;
    SkipBlankMeaning(docs, i, startRef.offset);
    var (j, start) := SkipBlank(docs, i, startRef.offset).value;
    var text := docs[j].text;
    var end := WindowEnd(|text|, start, SettingInt(windowSetting, DEFAULT_PLANNING_WINDOW_CHARS));
    AcceptedAttemptCutsTheWindow(
      nfc, text[start..end], attempts, MAX_PLAN_ATTEMPTS, end >= |text|,
      SettingInt(maxSetting, DEFAULT_PLANNING_MAX_EPISODES));
  }

  // ------------------------------------------------------------------- commit

  function NewCoordsUpTo(req: PlanRequest, k: nat): seq<Coords>
    requires k <= |req.ends|
  {
    seq(k, i requires 0 <= i < k => NewCoords(req, i))
  }

  lemma {:induction false} NewEntriesAreCanonical(entries: seq<Entry>, req: PlanRequest, onDisk: set<int>, k: nat)
    requires Canonical(entries) && k <= |req.ends|
    ensures var all := entries + NewEntries(req, |entries| + 1, onDisk, k);
            && Canonical(all)
            && CoordsOf(all) == CoordsOf(entries) + NewCoordsUpTo(req, k)
  {
    if k == 0 {
      assert entries + NewEntries(req, |entries| + 1, onDisk, 0) == entries;
    } else {
      NewEntriesAreCanonical(entries, req, onDisk, k - 1);
      var before := entries + NewEntries(req, |entries| + 1, onDisk, k - 1);
      var e := NewEntry(req, k - 1, |entries| + k, onDisk);
      assert entries + NewEntries(req, |entries| + 1, onDisk, k) == before + [e];
      assert |before| == |CoordsOf(before)| == |entries| + k - 1;
      assert ParseSourceRange(e) == Some(NewCoords(req, k - 1));
      assert CoordsOf(before + [e]) == CoordsOf(before) + [NewCoords(req, k - 1)];
      assert NewCoordsUpTo(req, k) == NewCoordsUpTo(req, k - 1) + [NewCoords(req, k - 1)];
    }
  }

  /** The request's first range starts the sources or follows the last episode, over blanks only. */
  lemma FirstRangeFollows(docs: seq<Doc>, cs: seq<Coords>, req: PlanRequest)
    requires DistinctRels(docs) && Chain(docs, cs) && RequestOk(docs, req)
    requires cs == [] ==> docs != [] && req.startRef == Position(docs[0].rel, 0)
    requires cs != [] ==> CursorAt(cs) == Some(req.startRef)
    ensures Chain(docs, cs + [NewCoords(req, 0)])
  {
    hide Chain;
    var i := IndexOf(docs, req.startRef.rel).value;
    SkipBlankMeaning(docs, i, req.startRef.offset);
    var (j, s) := SkipBlank(docs, i, req.startRef.offset).value;
    IndexOfDoc(docs, j);
    var c := NewCoords(req, 0);
    assert InBounds(docs, c);
    ChainInBounds(docs, cs);
    if cs == [] {
      IndexOfDoc(docs, 0);
      assert docs[0].text[0..] == docs[0].text;
      assert StartsTheSources(docs, c);
    } else {
      assert j > i ==> docs[i].rel != docs[j].rel;
      assert Follows(docs, cs[|cs| - 1], c);
    }
    ChainSnoc(docs, cs, c);
  }

  /** Each further range of the request starts at its predecessor's end. */
  lemma {:induction false} NewCoordsExtendTheChain(docs: seq<Doc>, cs: seq<Coords>, req: PlanRequest, k: nat)
    requires DistinctRels(docs) && Chain(docs, cs) && RequestOk(docs, req) && 1 <= k <= |req.ends|
    requires Chain(docs, cs + [NewCoords(req, 0)])
    ensures Chain(docs, cs + NewCoordsUpTo(req, k))
  {
    hide Chain, MismatchedFingerprints, Blank, AllBlank, SkipBlank;
    if k == 1 {
      assert NewCoordsUpTo(req, 1) == [NewCoords(req, 0)];
    } else {
      NewCoordsExtendTheChain(docs, cs, req, k - 1);
      var earlier := cs + NewCoordsUpTo(req, k - 1);
      var c := NewCoords(req, k - 1);
      ChainInBounds(docs, earlier);
      var i := IndexOf(docs, req.startRef.rel).value;
      SkipBlankMeaning(docs, i, req.startRef.offset);
      IndexOfDoc(docs, SkipBlank(docs, i, req.startRef.offset).value.0);
      assert earlier[|earlier| - 1] == NewCoords(req, k - 2);
      ChainSnoc(docs, earlier, c);
      assert earlier + [c] == cs + NewCoordsUpTo(req, k);
    }
  }

  lemma {:induction false} CanonicalDerivedWrites(docs: seq<Doc>, entries: seq<Entry>)
    requires Canonical(entries)
    requires forall k :: 0 <= k < |entries| ==> InBounds(docs, CoordsOf(entries)[k])
    ensures DerivedWrites(docs, entries).Ok?
    ensures var w := DerivedWrites(docs, entries).value;
            && (forall n :: n in w <==> 1 <= n <= |entries|)
            && (forall n :: 1 <= n <= |entries| ==> w[n] == Slice(docs, CoordsOf(entries)[n - 1]))
  {
    if entries != [] {
      var n := |entries| - 1;
      var front := entries[..n];
      assert forall k :: 0 <= k < n ==> CoordsOf(front)[k] == CoordsOf(entries)[k];
      CanonicalDerivedWrites(docs, front);
      var c := CoordsOf(entries)[n];
      assert InBounds(docs, c);
      assert DerivedWrites(docs, entries).value == DerivedWrites(docs, front).value[n + 1 := Slice(docs, c)];
    }
  }

  function EntriesAfter(st: State, req: PlanRequest, onDisk: set<int>): seq<Entry>
    requires st.project.episodes.Listed?
  {
    var before := st.project.episodes.entries;
    before + NewEntries(req, |before| + 1, onDisk, |req.ends|)
  }

  /** The commit's outcome once nothing needs healing or sorting. */
  lemma CommitUnhindered(docs: seq<Doc>, st: State, req: PlanRequest, onDisk: set<int>)
    requires req.ends != [] && st.project.episodes.Listed?
    requires CommitCheck(docs, st.project, DiscoveredNums(st.derived), onDisk, req.startRef, req.used).None?
    requires var before := st.project.episodes.entries;
             && RegisterOrphanEpisodeEntries(before, DiscoveredNums(st.derived), onDisk) == before
             && NonNull(before) == before && LargestNum(before) == |before|
    requires SortEpisodesIfPossible(EntriesAfter(st, req, onDisk)) == EntriesAfter(st, req, onDisk)
    requires Reconciled(docs, EntriesAfter(st, req, onDisk), st.derived).Ok?
    ensures var end := req.start + req.ends[|req.ends| - 1];
            CommitOf(docs, st, req, onDisk) == Ok((
              State(Project(Listed(EntriesAfter(st, req, onDisk)), Some(Position(req.rel, end)),
                  Some(AllRecorded(docs))),
                    Reconciled(docs, EntriesAfter(st, req, onDisk), st.derived).value),
              UsedUp(docs, req, end)))
  {
    hide CommitCheck, RegisterOrphanEpisodeEntries, NonNull, LargestNum, SortEpisodesIfPossible, Reconciled, UsedUp,
        NewEntries;
    hide AllRecorded, DiscoveredNums;
  }

  /** The ledger after the commit is canonical and its coordinates extend the chain by the request's ranges. */
  lemma EntriesAfterChain(docs: seq<Doc>, st: State, req: PlanRequest, onDisk: set<int>)
    requires DistinctRels(docs) && WellPlanned(docs, st) && RequestOk(docs, req)
    requires NextPosition(docs, st) == Some(req.startRef)
    ensures var entries := EntriesAfter(st, req, onDisk);
            && Canonical(entries)
            && CoordsOf(entries) == PlannedCoords(st) + NewCoordsUpTo(req, |req.ends|)
            && Chain(docs, CoordsOf(entries))
            && CursorAt(CoordsOf(entries)) == Some(Position(req.rel, req.start + req.ends[|req.ends| - 1]))
  {
    hide Chain, DerivesExactly, NewEntries;
    NewEntriesAreCanonical(st.project.episodes.entries, req, onDisk, |req.ends|);
    FirstRangeFollows(docs, PlannedCoords(st), req);
    NewCoordsExtendTheChain(docs, PlannedCoords(st), req, |req.ends|);
    var cs := PlannedCoords(st) + NewCoordsUpTo(req, |req.ends|);
    assert cs[|cs| - 1] == NewCoords(req, |req.ends| - 1);
  }

  /** In a well-planned state and with sources as they were read, only a moved start stops a commit. */
  lemma CommitCheckOfWellPlanned(docs: seq<Doc>, st: State, req: PlanRequest, onDisk: set<int>)
    requires DistinctRels(docs) && WellPlanned(docs, st) && MismatchedFingerprints(Some(req.used), docs) == {}
    ensures CommitCheck(docs, st.project, DiscoveredNums(st.derived), onDisk, req.startRef, req.used).None?
       <==> NextPosition(docs, st) == Some(req.startRef)
  {
    hide Chain, DerivesExactly, RegisterOrphanEpisodeEntries, EffectiveStart, MismatchedFingerprints;
    hide EpisodesWithoutSourceRange, Canonical, CoordsOf;
    GateOfWellPlanned(docs, st, onDisk);
    NothingMismatched(docs, st);
  }

  lemma ReconciledDerivesExactly(docs: seq<Doc>, entries: seq<Entry>, derived: map<int, string>)
    requires Canonical(entries) && Chain(docs, CoordsOf(entries))
    requires forall n :: n in derived ==> n >= 0
    ensures Reconciled(docs, entries, derived).Ok?
    ensures DerivesExactly(docs, CoordsOf(entries), Reconciled(docs, entries, derived).value)
  {
    hide Chain, InBounds, DerivedWrites, KnownNums, Slice, Canonical, CoordsOf, SortEpisodesIfPossible, StableSort;
    hide EpisodesWithoutSourceRange;
    ChainInBounds(docs, CoordsOf(entries));
    CanonicalDerivedWrites(docs, entries);
    CanonicalIsSorted(entries);
  }

  /**
    A commit succeeds exactly when the request's start is still where planning resumes; it then extends
    a well-planned state by the request's episodes to a well-planned state.
  */
  lemma CommitKeepsWellPlanned(docs: seq<Doc>, st: State, req: PlanRequest, onDisk: set<int>)
    requires DistinctRels(docs) && WellPlanned(docs, st) && RequestOk(docs, req)
    ensures CommitOf(docs, st, req, onDisk).Ok? <==> NextPosition(docs, st) == Some(req.startRef)
    ensures CommitOf(docs, st, req, onDisk).Ok? ==>
              var (after, usedUp) := CommitOf(docs, st, req, onDisk).value;
              var end := req.start + req.ends[|req.ends| - 1];
              && WellPlanned(docs, after)
              && PlannedCoords(after) == PlannedCoords(st) + NewCoordsUpTo(req, |req.ends|)
              && after.project.cursor == Some(Position(req.rel, end))
              && usedUp == UsedUp(docs, req, end)
  {
    hide Chain, CommitOf, CoordsOf, UsedUp, NewEntries, Reconciled, Gate, CommitCheck, RegisterOrphanEpisodeEntries,
        InBounds;
    hide StrictlyIncreasingFrom, SkipBlank;
    CommitCheckOfWellPlanned(docs, st, req, onDisk);
    if NextPosition(docs, st) == Some(req.startRef) {
      GateOfWellPlanned(docs, st, onDisk);
      CanonicalScans(st.project.episodes.entries);
      EntriesAfterChain(docs, st, req, onDisk);
      ReconciledDerivesExactly(docs, EntriesAfter(st, req, onDisk), st.derived);
      CanonicalIsSorted(EntriesAfter(st, req, onDisk));
      CommitUnhindered(docs, st, req, onDisk);
    } else {
      RefusedIsAnError(docs, st, req, onDisk);
    }
  }

  lemma RefusedIsAnError(docs: seq<Doc>, st: State, req: PlanRequest, onDisk: set<int>)
    requires req.ends != []
    requires CommitCheck(docs, st.project, DiscoveredNums(st.derived), onDisk, req.startRef, req.used).Some?
    ensures CommitOf(docs, st, req, onDisk).Err?
  {
  }

  /** Where the next batch begins. */
  function NextPosition(docs: seq<Doc>, st: State): Option<Position>
    requires st.project.episodes.Listed? && Canonical(st.project.episodes.entries)
  {
    var cs := PlannedCoords(st);
    if cs != [] then CursorAt(cs) else if docs == [] then None else Some(Position(docs[0].rel, 0))
  }

  // -------------------------------------------------------------------- reset

  lemma CanonicalParts(entries: seq<Entry>)
    requires Canonical(entries) && entries != []
    ensures var n := |entries| - 1; Canonical(entries[..n]) && entries[n].Entry? && SortKey(entries[n]) == n + 1
  {
  }

  lemma NothingRetained(from: int)
    ensures Retained([], from) == []
  {
  }

  lemma RetainedLast(entries: seq<Entry>, from: int)
    requires Canonical(entries) && entries != []
    ensures var n := |entries| - 1;
            && Canonical(entries[..n])
            && Retained(entries, from) ==
               if n + 1 < from then Retained(entries[..n], from) + [entries[n]] else Retained(entries[..n], from)
  {
    hide Canonical, SortKey;
    CanonicalParts(entries);
  }

  lemma {:induction false} RetainedOfCanonical(entries: seq<Entry>, from: int)
    requires Canonical(entries) && from >= 1
    ensures Retained(entries, from) == if from <= |entries| then entries[..from - 1] else entries
  {
    hide Canonical, Retained;
    NothingRetained(from);
    if entries != [] {
      var front := entries[..|entries| - 1];
      RetainedLast(entries, from);
      RetainedOfCanonical(front, from);
      TakeOneMore(entries, from);
    }
  }

  lemma TakeOneMore(entries: seq<Entry>, from: int)
    requires entries != [] && from >= 1
    ensures var n := |entries| - 1;
            && (n + 1 < from ==> entries[..n] + [entries[n]] == entries)
            && (from <= n ==> entries[..n][..from - 1] == entries[..from - 1])
  {
  }

  lemma EntryForCanonical(entries: seq<Entry>, k: nat)
    requires Canonical(entries) && 1 <= k <= |entries|
    ensures EntryFor(entries, k) == Some(entries[k - 1])
  {
    CanonicalIsSorted(entries);
    var e := EntryFor(entries, k);
    var i :| 0 <= i < |entries| && entries[i] == e.value;
    assert NumOf(entries[i]) == Some(i + 1);
  }

  lemma {:induction false} RetainedCoordsOfCanonical(entries: seq<Entry>, k: nat)
    requires Canonical(entries) && k <= |entries|
    ensures RetainedCoords(entries, k) == Some(CoordsOf(entries)[..k])
  {
    if k > 0 {
      RetainedCoordsOfCanonical(entries, k - 1);
      EntryForCanonical(entries, k);
      assert CoordsOf(entries)[..k] == CoordsOf(entries)[..k - 1] + [CoordsOf(entries)[k - 1]];
    }
  }

  /**
    The reset validator agrees with the planner: in a well-planned state it accepts exactly the
    episodes 2..n and returns the end of the episode before.
  */
  lemma ValidatorAgreesWithPlanner(docs: seq<Doc>, st: State, from: int)
    requires DistinctRels(docs) && WellPlanned(docs, st)
    ensures var cs := PlannedCoords(st);
            PartialResetCursor(docs, st.project, from) ==
              if 2 <= from <= |cs| then Some(Position(cs[from - 2].rel, cs[from - 2].end)) else None
  {
    hide Chain, DerivesExactly, Resettable;
    ResettableExactlyWithin(docs, st, from);
    if 2 <= from <= |PlannedCoords(st)| {
      RetainedCoordsOfCanonical(st.project.episodes.entries, from - 1);
    }
  }

  lemma ResettableExactlyWithin(docs: seq<Doc>, st: State, from: int)
    requires DistinctRels(docs) && WellPlanned(docs, st)
    ensures Resettable(docs, st.project, from) <==> 2 <= from <= |st.project.episodes.entries|
  {
    hide Chain, DerivesExactly, RetainedCoords, MismatchedFingerprints;
    var entries := st.project.episodes.entries;
    CanonicalIsSorted(entries);
    NothingMismatched(docs, st);
    assert from in KnownNums(entries) <==> 1 <= from <= |entries|;
    if 2 <= from <= |entries| {
      RetainedCoordsOfCanonical(entries, from - 1);
      ChainPrefix(docs, CoordsOf(entries), from - 1);
      assert forall i :: 0 <= i < |entries| ==> NumOf(entries[i]) == Some(i + 1);
    }
  }

  lemma NothingMismatched(docs: seq<Doc>, st: State)
    requires WellPlanned(docs, st)
    ensures MismatchedFingerprints(st.project.prints, docs) == {}
  {
    hide Chain, DerivesExactly, CoordsOf, Canonical, Fingerprints;
    FreshRecordMatches(docs);
  }

  lemma ResetOfWellPlanned(docs: seq<Doc>, st: State, from: int, confirm: bool, foreseen: set<int>, onDisk: set<int>)
    requires DistinctRels(docs) && WellPlanned(docs, st)
    requires ResetOf(docs, st, from, confirm, foreseen, onDisk).ResetDone?
    ensures var n := |st.project.episodes.entries|;
            && 1 <= from && (from > 1 ==> from <= n)
            && var entries := st.project.episodes.entries[..from - 1];
            && Canonical(entries)
            && ResetOf(docs, st, from, confirm, foreseen, onDisk) == ResetDone(State(
                 Project(Listed(entries), CursorAt(CoordsOf(entries)), if from == 1 then None else st.project.prints),
                 map k | k in st.derived && !(k >= 0 && InScope(from, k)) :: st.derived[k]))
  {
    hide Chain, ConsumedNums, InBounds, DerivesExactly, Resettable, Retained, StableSort, PartialResetCursor;
    ValidatorAgreesWithPlanner(docs, st, from);
    NoCursorNoReset(docs, st.project, from);
    var entries := st.project.episodes.entries;
    if from > 1 {
      RetainedOfCanonical(entries, from);
      CanonicalIsSorted(entries[..from - 1]);
    } else {
      assert entries[..0] == [];
    }
  }

  lemma NoCursorNoReset(docs: seq<Doc>, project: Project, from: int)
    ensures Resettable(docs, project, from) <==> PartialResetCursor(docs, project, from).Some?
  {
  }

  lemma ResetKeepsWellPlanned(docs: seq<Doc>, st: State, from: int, confirm: bool, foreseen: set<int>, onDisk: set<int>)
    requires DistinctRels(docs) && WellPlanned(docs, st)
    requires ResetOf(docs, st, from, confirm, foreseen, onDisk).ResetDone?
    ensures WellPlanned(docs, ResetOf(docs, st, from, confirm, foreseen, onDisk).st)
    ensures PlannedCoords(ResetOf(docs, st, from, confirm, foreseen, onDisk).st) == PlannedCoords(st)[..from - 1]
  {
    hide Chain, InBounds, ResetOf, IndexOf;
    var cs := PlannedCoords(st);
    ResetOfWellPlanned(docs, st, from, confirm, foreseen, onDisk);
    ChainPrefix(docs, cs, from - 1);
    ChainInBounds(docs, cs);
    assert CoordsOf(st.project.episodes.entries[..from - 1]) == cs[..from - 1];
  }

  // --------------------------------------------------------------------- runs

  datatype Event =
    | Prepare(id: nat, windowSetting: Value, maxSetting: Value, attempts: seq<Attempt>, onDisk: set<int>)
    | Commit(id: nat, onDisk: set<int>)
    | Backfill(id: nat)
    | Reset(from: int, confirm: bool, foreseen: set<int>, onDisk: set<int>)

  /** The project, and the calls that have read it but not yet committed. */
  datatype World = World(st: State, pending: map<nat, PlanRequest>, backfills: map<nat, Recorded>)

  const EMPTY_WORLD := World(State(Project(Listed([]), None, None), map[]), map[], map[])

  /** Preparing reads the project without the lock; committing and resetting are atomic under it. */
  function Step(nfc: string -> string, docs: seq<Doc>, w: World, e: Event): World {
    match e
    case Prepare(id, windowSetting, maxSetting, attempts, onDisk) =>
      (match PreparationOf(nfc, docs, w.st, onDisk, windowSetting, maxSetting, attempts)
       case Ready(request) => w.(pending := w.pending[id := request])
       case Exhausted =>
         if w.st.project.prints.Some? then w else w.(backfills := w.backfills[id := AllRecorded(docs)])
       case Refused(_) => w)
    case Commit(id, onDisk) =>
      if id in w.pending && w.pending[id].ends != [] then
        var r := CommitOf(docs, w.st, w.pending[id], onDisk);
        w.(st := if r.Ok? then r.value.0 else w.st, pending := w.pending - {id})
      else w
    case Backfill(id) =>
      if id in w.backfills then
        var r := BackfillOf(docs, w.st, w.backfills[id]);
        w.(st := if r.Ok? then r.value else w.st, backfills := w.backfills - {id})
      else w
    case Reset(from, confirm, foreseen, onDisk) =>
      var r := ResetOf(docs, w.st, from, confirm, foreseen, onDisk);
      if r.ResetDone? then w.(st := r.st) else w
  }

  function Run(nfc: string -> string, docs: seq<Doc>, events: seq<Event>): World {
    if events == [] then EMPTY_WORLD
    else Step(nfc, docs, Run(nfc, docs, events[..|events| - 1]), events[|events| - 1])
  }

  ghost predicate WorldOk(docs: seq<Doc>, w: World) {
    && WellPlanned(docs, w.st)
    && (forall id :: id in w.pending ==> RequestOk(docs, w.pending[id]))
    && BackfillsOk(docs, w)
  }

  /**
    Digests are missing only before the first commit, and a call finds nothing to plan then only if all sources
    are blank.
  */
  ghost predicate BackfillsOk(docs: seq<Doc>, w: World)
    requires w.st.project.episodes.Listed?
  {
    && (w.st.project.prints.None? ==> w.st.project.episodes.entries == [])
    && forall id :: id in w.backfills ==> w.backfills[id] == AllRecorded(docs) && AllBlank(docs, 0, |docs|)
  }

  lemma ExhaustedWithoutDigests(
      nfc: string -> string, docs: seq<Doc>, st: State, onDisk: set<int>,
      windowSetting: Value, maxSetting: Value, attempts: seq<Attempt>)
    requires DistinctRels(docs) && WellPlanned(docs, st) && st.project.episodes.entries == []
    requires PreparationOf(nfc, docs, st, onDisk, windowSetting, maxSetting, attempts).Exhausted?
    ensures AllBlank(docs, 0, |docs|)
  {
    hide Chain, DraftWindow, Gate, InBounds, RegisterOrphanEpisodeEntries, DerivesExactly, MismatchedFingerprints;
    GateOfWellPlanned(docs, st, onDisk);
    IndexOfDoc(docs, 0);
    SkipBlankMeaning(docs, 0, 0);
    assert docs[0].text[0..] == docs[0].text;
  }

  lemma BackfillKeepsWellPlanned(docs: seq<Doc>, st: State, used: Recorded)
    requires WellPlanned(docs, st) && used == AllRecorded(docs)
    ensures BackfillOf(docs, st, used).Ok?
    ensures var after := BackfillOf(docs, st, used).value;
            && WellPlanned(docs, after) && after.project.prints.Some?
            && after.project.episodes == st.project.episodes && after.derived == st.derived
  {
    hide Chain, DerivesExactly, MismatchedFingerprints;
    NothingMismatched(docs, st);
    FreshRecordMatches(docs);
  }

  lemma PrepareKeepsWorldOk(nfc: string -> string, docs: seq<Doc>, w: World, e: Event)
    requires DistinctRels(docs) && WorldOk(docs, w) && e.Prepare?
    ensures WorldOk(docs, Step(nfc, docs, w, e))
  {
    hide WellPlanned, RequestOk, PreparationOf, CommitOf, ResetOf, BackfillOf, PlannedCoords, AllBlank, AllRecorded,
        Canonical;
    WellPlannedIsListed(docs, w.st);
    var p := PreparationOf(nfc, docs, w.st, e.onDisk, e.windowSetting, e.maxSetting, e.attempts);
    if p.Ready? {
      PreparedRequestOk(nfc, docs, w.st, e.onDisk, e.windowSetting, e.maxSetting, e.attempts);
    }
    if p.Exhausted? && w.st.project.prints.None? {
      ExhaustedWithoutDigests(nfc, docs, w.st, e.onDisk, e.windowSetting, e.maxSetting, e.attempts);
    }
  }

  lemma CommitKeepsWorldOk(nfc: string -> string, docs: seq<Doc>, w: World, id: nat, onDisk: set<int>)
    requires DistinctRels(docs) && WorldOk(docs, w)
    ensures WorldOk(docs, Step(nfc, docs, w, Commit(id, onDisk)))
  {
    hide WellPlanned, RequestOk, PreparationOf, CommitOf, ResetOf, BackfillOf, PlannedCoords, AllBlank, AllRecorded,
        Canonical;
    WellPlannedIsListed(docs, w.st);
    if id in w.pending && w.pending[id].ends != [] && CommitOf(docs, w.st, w.pending[id], onDisk).Ok? {
      CommitKeepsWellPlanned(docs, w.st, w.pending[id], onDisk);
      CommitRecordsDigests(docs, w.st, w.pending[id], onDisk);
    }
  }

  lemma BackfillKeepsWorldOk(nfc: string -> string, docs: seq<Doc>, w: World, id: nat)
    requires DistinctRels(docs) && WorldOk(docs, w)
    ensures WorldOk(docs, Step(nfc, docs, w, Backfill(id)))
  {
    hide WellPlanned, RequestOk, PreparationOf, CommitOf, ResetOf, BackfillOf, PlannedCoords, AllBlank, AllRecorded,
        Canonical;
    WellPlannedIsListed(docs, w.st);
    if id in w.backfills {
      BackfillKeepsWellPlanned(docs, w.st, w.backfills[id]);
    }
  }

  lemma ResetKeepsWorldOk(nfc: string -> string, docs: seq<Doc>, w: World, e: Event)
    requires DistinctRels(docs) && WorldOk(docs, w) && e.Reset?
    ensures WorldOk(docs, Step(nfc, docs, w, e))
  {
    hide WellPlanned, RequestOk, PreparationOf, CommitOf, ResetOf, BackfillOf, PlannedCoords, AllBlank, AllRecorded,
        Canonical;
    WellPlannedIsListed(docs, w.st);
    if ResetOf(docs, w.st, e.from, e.confirm, e.foreseen, e.onDisk).ResetDone? {
      ResetKeepsWellPlanned(docs, w.st, e.from, e.confirm, e.foreseen, e.onDisk);
      ResetKeepsDigests(docs, w.st, e.from, e.confirm, e.foreseen, e.onDisk);
    }
  }

  lemma StepKeepsWorldOk(nfc: string -> string, docs: seq<Doc>, w: World, e: Event)
    requires DistinctRels(docs) && WorldOk(docs, w)
    ensures WorldOk(docs, Step(nfc, docs, w, e))
  {
    hide WorldOk, Step;
    match e {
      case Prepare(_, _, _, _, _) => PrepareKeepsWorldOk(nfc, docs, w, e);
      case Commit(id, onDisk) => CommitKeepsWorldOk(nfc, docs, w, id, onDisk);
      case Backfill(id) => BackfillKeepsWorldOk(nfc, docs, w, id);
      case Reset(_, _, _, _) => ResetKeepsWorldOk(nfc, docs, w, e);
    }
  }

  lemma WellPlannedIsListed(docs: seq<Doc>, st: State)
    requires WellPlanned(docs, st)
    ensures st.project.episodes.Listed? && Canonical(st.project.episodes.entries)
  {
  }

  lemma CommitRecordsDigests(docs: seq<Doc>, st: State, req: PlanRequest, onDisk: set<int>)
    requires req.ends != [] && CommitOf(docs, st, req, onDisk).Ok?
    ensures var after := CommitOf(docs, st, req, onDisk).value.0;
            after.project.prints.Some? && after.project.episodes.Listed?
  {
  }

  lemma ResetKeepsDigests(docs: seq<Doc>, st: State, from: int, confirm: bool, foreseen: set<int>, onDisk: set<int>)
    requires DistinctRels(docs) && WellPlanned(docs, st)
    requires ResetOf(docs, st, from, confirm, foreseen, onDisk).ResetDone?
    requires st.project.prints.None? ==> st.project.episodes.entries == []
    ensures var after := ResetOf(docs, st, from, confirm, foreseen, onDisk).st;
            && after.project.episodes.Listed?
            && (after.project.prints.None? ==> after.project.episodes.entries == [])
  {
    hide Chain, DerivesExactly, ResetOf;
    ResetOfWellPlanned(docs, st, from, confirm, foreseen, onDisk);
  }

  /** From an empty ledger, every interleaving of planning calls and resets stays well planned. */
  lemma {:induction false} EveryRunIsWellPlanned(nfc: string -> string, docs: seq<Doc>, events: seq<Event>)
    requires DistinctRels(docs)
    ensures WorldOk(docs, Run(nfc, docs, events))
  {
    if events != [] {
      EveryRunIsWellPlanned(nfc, docs, events[..|events| - 1]);
      StepKeepsWorldOk(nfc, docs, Run(nfc, docs, events[..|events| - 1]), events[|events| - 1]);
    }
  }

  /** In every reachable state the validator accepts each planned episode from the second on, at the right cursor. */
  lemma ValidatorAcceptsEveryReachableLedger(nfc: string -> string, docs: seq<Doc>, events: seq<Event>, from: int)
    requires DistinctRels(docs)
    ensures var st := Run(nfc, docs, events).st;
            && st.project.episodes.Listed? && Canonical(st.project.episodes.entries)
            && var cs := PlannedCoords(st);
            && (2 <= from <= |cs| ==>
                  PartialResetCursor(docs, st.project, from) == Some(Position(cs[from - 2].rel, cs[from - 2].end)))
            && (!(2 <= from <= |cs|) ==> PartialResetCursor(docs, st.project, from).None?)
  {
    EveryRunIsWellPlanned(nfc, docs, events);
    ValidatorAgreesWithPlanner(docs, Run(nfc, docs, events).st, from);
  }

  // ------------------------------------------------------------- conservation

  /** The derived episode files in number order. */
  function DerivedReading(st: State, n: nat): seq<string>
    requires forall k :: 1 <= k <= n ==> k in st.derived
  {
    seq(n, i requires 0 <= i < n => st.derived[i + 1])
  }

  /** The derived files number the ledger's episodes and, once whitespace is removed, read as `ink`. */
  ghost predicate ReadsAs(st: State, ink: string) {
    && st.project.episodes.Listed?
    && var n := |st.project.episodes.entries|;
    && (forall k :: k in st.derived <==> 1 <= k <= n)
    && Ink(Flatten(DerivedReading(st, n))) == ink
  }

  lemma WellPlannedReads(docs: seq<Doc>, st: State)
    requires DistinctRels(docs) && WellPlanned(docs, st)
    ensures st.project.cursor.None? ==> ReadsAs(st, "")
    ensures st.project.cursor.Some? ==>
              var at := st.project.cursor.value;
              var i := IndexOf(docs, at.rel);
              && i.Some? && 0 < at.offset <= |docs[i.value].text|
              && ReadsAs(st, InkUpTo(docs, i.value, at.offset))
  {
    hide Chain, ParseSourceRange, InkUpTo, InkOfDocs, AllRecorded, Canonical, DerivesExactly, DerivedReading, Reading,
        Flatten, Ink;
    var cs := PlannedCoords(st);
    ChainInBounds(docs, cs);
    if cs != [] {
      ChainReadsTheSources(docs, cs);
    } else {
      NothingToRead(st);
    }
    DerivedReadingIsReading(docs, st);
  }

  lemma NothingToRead(st: State)
    ensures DerivedReading(st, 0) == [] && Ink(Flatten<char>([])) == ""
  {
  }

  lemma DerivedReadingIsReading(docs: seq<Doc>, st: State)
    requires WellPlanned(docs, st)
    ensures var cs := PlannedCoords(st);
            && (forall k :: k in st.derived <==> 1 <= k <= |cs|)
            && DerivedReading(st, |cs|) == Reading(docs, cs)
  {
    hide Chain, ParseSourceRange, Slice, AllRecorded, Canonical;
    var cs := PlannedCoords(st);
    ChainInBounds(docs, cs);
  }

  /**
    In every reachable state the derived files, once whitespace is removed, are exactly the sources up to the
    cursor.
  */
  lemma DerivedFilesReadTheSources(nfc: string -> string, docs: seq<Doc>, events: seq<Event>)
    requires DistinctRels(docs)
    ensures var st := Run(nfc, docs, events).st;
            && (st.project.cursor.None? ==> ReadsAs(st, ""))
            && (st.project.cursor.Some? ==>
                  var at := st.project.cursor.value;
                  var i := IndexOf(docs, at.rel);
                  && i.Some? && 0 < at.offset <= |docs[i.value].text|
                  && ReadsAs(st, InkUpTo(docs, i.value, at.offset)))
  {
    hide WellPlanned;
    hide ReadsAs;
    EveryRunIsWellPlanned(nfc, docs, events);
    WellPlannedReads(docs, Run(nfc, docs, events).st);
  }

  lemma UsedUpMeansAllRead(docs: seq<Doc>, i: nat, at: nat)
    requires i < |docs| && at <= |docs[i].text|
    requires Blank(docs[i].text[at..]) && AllBlank(docs, i + 1, |docs|)
    ensures InkUpTo(docs, i, at) == InkOfDocs(docs, |docs|)
  {
    FinishedDocAddsItsInk(docs, i, at);
    BlankDocsAddNoInk(docs, i + 1, |docs|);
  }

  /** A commit that reports the sources used up has put all of their text into the derived files. */
  lemma CommitReportsExhaustionTruthfully(docs: seq<Doc>, st: State, req: PlanRequest, onDisk: set<int>)
    requires DistinctRels(docs) && WellPlanned(docs, st) && RequestOk(docs, req)
    requires CommitOf(docs, st, req, onDisk).Ok? && CommitOf(docs, st, req, onDisk).value.1
    ensures ReadsAs(CommitOf(docs, st, req, onDisk).value.0, InkOfDocs(docs, |docs|))
  {
    hide Chain, CommitOf, ReadsAs, WellPlanned, InBounds, SkipBlank, StrictlyIncreasingFrom, InkOfDocs, InkUpTo,
        PlannedCoords;
    CommitKeepsWellPlanned(docs, st, req, onDisk);
    WellPlannedReads(docs, CommitOf(docs, st, req, onDisk).value.0);
    UsedUpMeansAllRead(docs, IndexOf(docs, req.rel).value, req.start + req.ends[|req.ends| - 1]);
  }

  /** A planning call that finds nothing left to plan leaves derived files that hold all of the text. */
  lemma ExhaustedPlanMeansAllRead(
      nfc: string -> string, docs: seq<Doc>, st: State,
      windowSetting: Value, maxSetting: Value, attempts: seq<Attempt>, onDisk: set<int>)
    requires DistinctRels(docs) && WellPlanned(docs, st)
    requires PreparationOf(nfc, docs, st, onDisk, windowSetting, maxSetting, attempts).Exhausted?
    ensures ReadsAs(st, InkOfDocs(docs, |docs|))
  {
    hide Chain, ReadsAs, DraftWindow, Gate, InBounds, RegisterOrphanEpisodeEntries, DerivesExactly;
    WellPlannedReads(docs, st);
    GateOfWellPlanned(docs, st, onDisk);
    var startRef := Gate(docs, st.project, DiscoveredNums(st.derived), onDisk).value;
    var i := IndexOf(docs, startRef.rel).value;
    SkipBlankMeaning(docs, i, startRef.offset);
    assert SkipBlank(docs, i, startRef.offset).None?;
    UsedUpMeansAllRead(docs, i, startRef.offset);
    if st.project.episodes.entries == [] {
      IndexOfDoc(docs, 0);
      assert InkUpTo(docs, 0, 0) == "";
    }
  }

  /** Whenever a planning call of any run reports the sources exhausted, every source is read out in full. */
  lemma ReportedExhaustionIsTrue(nfc: string -> string, docs: seq<Doc>, events: seq<Event>, e: Event)
    requires DistinctRels(docs)
    ensures ReportsExhausted(nfc, docs, Run(nfc, docs, events), e) ==>
              ReadsAs(Run(nfc, docs, events + [e]).st, InkOfDocs(docs, |docs|))
  {
    hide WellPlanned, ReadsAs, CommitOf, PreparationOf;
    EveryRunIsWellPlanned(nfc, docs, events);
    var w := Run(nfc, docs, events);
    assert (events + [e])[..|events|] == events;
    if ReportsExhausted(nfc, docs, w, e) {
      match e {
        case Prepare(id, windowSetting, maxSetting, attempts, onDisk) =>
          ExhaustedPlanMeansAllRead(nfc, docs, w.st, windowSetting, maxSetting, attempts, onDisk);
        case Commit(id, onDisk) =>
          CommitReportsExhaustionTruthfully(docs, w.st, w.pending[id], onDisk);
        case Backfill(id) =>
          BackfillKeepsWellPlanned(docs, w.st, w.backfills[id]);
          BlankSourcesReadAsNothing(docs, BackfillOf(docs, w.st, w.backfills[id]).value);
        case Reset(_, _, _, _) =>
      }
    }
  }

  /** Over blank sources every well-planned state reads as nothing, which is all there is. */
  lemma BlankSourcesReadAsNothing(docs: seq<Doc>, st: State)
    requires DistinctRels(docs) && WellPlanned(docs, st) && AllBlank(docs, 0, |docs|)
    ensures ReadsAs(st, InkOfDocs(docs, |docs|))
  {
    hide WellPlanned, ReadsAs;
    WellPlannedReads(docs, st);
    BlankDocsAddNoInk(docs, 0, |docs|);
    if st.project.cursor.Some? {
      var at := st.project.cursor.value;
      var i := IndexOf(docs, at.rel).value;
      BlankDocsAddNoInk(docs, 0, i);
      BlankHasNoInk(docs[i].text[..at.offset]);
    }
  }

  /** The event is a planning call that answers `source_exhausted`. */
  ghost predicate ReportsExhausted(nfc: string -> string, docs: seq<Doc>, w: World, e: Event) {
    match e
    case Prepare(_, windowSetting, maxSetting, attempts, onDisk) =>
      PreparationOf(nfc, docs, w.st, onDisk, windowSetting, maxSetting, attempts).Exhausted?
          && w.st.project.prints.Some?
    case Backfill(id) => id in w.backfills && BackfillOf(docs, w.st, w.backfills[id]).Ok?
    case Commit(id, onDisk) =>
      && id in w.pending && w.pending[id].ends != []
      && CommitOf(docs, w.st, w.pending[id], onDisk).Ok? && CommitOf(docs, w.st, w.pending[id], onDisk).value.1
    case Reset(_, _, _, _) => false
  }
}
