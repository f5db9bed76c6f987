/**
  Planning the next batch of episodes: where it starts, which window it covers, and the commit that
  appends ledger entries, moves the cursor and rewrites one derived file per episode.
*/
module EpisodePlanner {
  import opened Prelude
  import opened SourceText
  import opened EpisodeAnchors
  import opened EpisodeLedger

  const DEFAULT_PLANNING_WINDOW_CHARS: nat := 30000
  const DEFAULT_PLANNING_MAX_EPISODES: nat := 20
  const MAX_PLAN_ATTEMPTS: nat := 3

  datatype PlanError =
    | MalformedLedger
    | MissingSourceRange(nums: set<int>)
    | SourceChanged(rels: set<string>)
    | NoSources
    | SourceMissing(rel: string)
    | StartOutOfBounds
    | DraftsRejected
    | PlanningConflict
    | RangeInvalid(num: int)

  // ------------------------------------------------------------ ledger order

  /** Stable insertion: after every entry whose number is not larger. */
  function Insert(sorted: seq<Entry>, e: Entry): seq<Entry> {
    if sorted == [] then [e]
    else
      var n := |sorted| - 1;
      if SortKey(sorted[n]) <= SortKey(e) then sorted + [e] else Insert(sorted[..n], e) + [sorted[n]]
  }

  function SortKey(e: Entry): int {
    if NumOf(e).Some? then NumOf(e).value else 0
  }

  function StableSort(entries: seq<Entry>): seq<Entry> {
    if entries == [] then [] else Insert(StableSort(entries[..|entries| - 1]), entries[|entries| - 1])
  }

  predicate AllNumbered(entries: seq<Entry>) {
    forall i :: 0 <= i < |entries| ==> NumOf(entries[i]).Some?
  }

  function SortEpisodesIfPossible(entries: seq<Entry>): seq<Entry> {
    if AllNumbered(entries) then StableSort(entries) else entries
  }

  predicate InOrder(entries: seq<Entry>) {
    forall i, j :: 0 <= i < j < |entries| ==> SortKey(entries[i]) <= SortKey(entries[j])
  }

  lemma {:induction false} InsertKeepsEntries(sorted: seq<Entry>, e: Entry)
    ensures multiset(Insert(sorted, e)) == multiset(sorted) + multiset{e}
  {
    if sorted != [] {
      var n := |sorted| - 1;
      assert sorted == sorted[..n] + [sorted[n]];
      InsertKeepsEntries(sorted[..n], e);
    }
  }

  lemma OrderedSnoc(front: seq<Entry>, last: Entry)
    requires InOrder(front) && forall e :: e in multiset(front) ==> SortKey(e) <= SortKey(last)
    ensures InOrder(front + [last])
  {
    hide SortKey;
    var all := front + [last];
    forall i, j | 0 <= i < j < |all| ensures SortKey(all[i]) <= SortKey(all[j]) {
      assert front[i] in multiset(front);
    }
  }

  lemma OrderedFront(sorted: seq<Entry>)
    requires InOrder(sorted) && sorted != []
    ensures var n := |sorted| - 1;
            && InOrder(sorted[..n])
            && sorted == sorted[..n] + [sorted[n]]
            && forall e :: e in multiset(sorted[..n]) ==> SortKey(e) <= SortKey(sorted[n])
  {
    hide SortKey;
    var n := |sorted| - 1;
    forall e | e in multiset(sorted[..n]) ensures SortKey(e) <= SortKey(sorted[n]) {
      assert e in sorted[..n];
      var i :| 0 <= i < n && sorted[..n][i] == e;
      assert sorted[i] == e;
    }
  }

  lemma {:induction false} InsertKeepsOrder(sorted: seq<Entry>, e: Entry)
    requires InOrder(sorted)
    ensures InOrder(Insert(sorted, e))
  {
    hide InOrder, SortKey;
    if sorted == [] {
      InOrderOne(e);
    } else {
      var n := |sorted| - 1;
      OrderedFront(sorted);
      if SortKey(sorted[n]) <= SortKey(e) {
        assert multiset(sorted) == multiset(sorted[..n]) + multiset{sorted[n]};
        OrderedSnoc(sorted, e);
      } else {
        InsertKeepsOrder(sorted[..n], e);
        InsertKeepsEntries(sorted[..n], e);
        OrderedSnoc(Insert(sorted[..n], e), sorted[n]);
      }
    }
  }

  lemma InOrderOne(e: Entry)
    ensures InOrder([e])
  {
  }

  /** Sorting orders the ledger by number and neither drops nor repeats an entry. */
  lemma {:induction false} StableSortOrders(entries: seq<Entry>)
    ensures InOrder(StableSort(entries))
    ensures multiset(StableSort(entries)) == multiset(entries)
    ensures InOrder(entries) ==> StableSort(entries) == entries
  {
    if entries != [] {
      var n := |entries| - 1;
      assert entries == entries[..n] + [entries[n]];
      StableSortOrders(entries[..n]);
      InsertKeepsOrder(StableSort(entries[..n]), entries[n]);
      InsertKeepsEntries(StableSort(entries[..n]), entries[n]);
      assert InOrder(entries) ==> InOrder(entries[..n]);
    }
  }

  // ------------------------------------------------------------------ orphans

  function KnownNums(entries: seq<Entry>): set<int> {
    set i | 0 <= i < |entries| && NumOf(entries[i]).Some? :: NumOf(entries[i]).value
  }

  lemma KnownNumsSnoc(entries: seq<Entry>, e: Entry)
    ensures KnownNums(entries + [e]) == KnownNums(entries) + (if NumOf(e).Some? then {NumOf(e).value} else {})
  {
    var all := entries + [e];
    forall n | n in KnownNums(entries) ensures n in KnownNums(all) {
      var i :| 0 <= i < |entries| && NumOf(entries[i]).Some? && NumOf(entries[i]).value == n;
      assert all[i] == entries[i];
    }
    assert NumOf(e).Some? ==> NumOf(all[|entries|]).value in KnownNums(all);
  }

  /** The numbers of the derived files a directory scan finds; negative names are not matched. */
  function DiscoveredNums(derived: map<int, string>): seq<int> {
    Ascending(set n | n in derived && n >= 0)
  }

  function OrphanEntries(known: set<int>, discovered: seq<int>, onDisk: set<int>): seq<Entry> {
    if discovered == [] then []
    else
      var n := discovered[0];
      (if n in known then [] else [Entry(Int(n), NoRange, if n in onDisk then Consumed else Planned)])
      + OrphanEntries(known, discovered[1..], onDisk)
  }

  /** An entry without position for every derived file that has none; `onDisk` has the numbers with later products. */
  function RegisterOrphanEpisodeEntries(entries: seq<Entry>, discovered: seq<int>, onDisk: set<int>): seq<Entry> {
    SortEpisodesIfPossible(entries + OrphanEntries(KnownNums(entries), discovered, onDisk))
  }

  lemma {:induction false} NoOrphansWhenAllKnown(known: set<int>, discovered: seq<int>, onDisk: set<int>)
    requires forall n :: n in discovered ==> n in known
    ensures OrphanEntries(known, discovered, onDisk) == []
  {
    if discovered != [] {
      assert discovered[0] in discovered;
      assert forall n :: n in discovered[1..] ==> n in discovered;
      NoOrphansWhenAllKnown(known, discovered[1..], onDisk);
    }
  }

  lemma {:induction false} OrphanIsRegistered(known: set<int>, discovered: seq<int>, onDisk: set<int>, n: int)
    requires n in discovered && n !in known
    ensures exists e :: e in OrphanEntries(known, discovered, onDisk) && e.Entry? && e.episode == Int(n)
              && e.range == NoRange
  {
    var here := Entry(Int(n), NoRange, if n in onDisk then Consumed else Planned);
    if discovered[0] == n {
      assert here in OrphanEntries(known, discovered, onDisk);
    } else {
      assert n in discovered[1..];
      OrphanIsRegistered(known, discovered[1..], onDisk, n);
    }
  }

  /** A derived file without a ledger entry always stops planning: its registration carries no position. */
  lemma OrphanFileBlocksPlanning(entries: seq<Entry>, discovered: seq<int>, onDisk: set<int>, n: int)
    requires n in discovered && n !in KnownNums(entries)
    ensures n in EpisodesWithoutSourceRange(RegisterOrphanEpisodeEntries(entries, discovered, onDisk))
  {
    hide StableSort, OrphanEntries, AllNumbered, InOrder;
    var orphans := OrphanEntries(KnownNums(entries), discovered, onDisk);
    OrphanIsRegistered(KnownNums(entries), discovered, onDisk, n);
    var e :| e in orphans && e.Entry? && e.episode == Int(n) && e.range == NoRange;
    var joined := entries + orphans;
    StableSortOrders(joined);
    var r := RegisterOrphanEpisodeEntries(entries, discovered, onDisk);
    assert e in joined && multiset(r) == multiset(joined);
    assert e in multiset(joined) && e in multiset(r) && e in r;
    var i :| 0 <= i < |r| && r[i] == e;
    assert NumOf(r[i]) == Some(n);
  }

  // -------------------------------------------------------------------- start

  /** The number and end of an entry that carries a usable end position. */
  function AnchorOf(e: Entry): Option<(int, Position)> {
    if NumOf(e).Some? && e.range.Fields? && e.range.file.Text? && e.range.end.Int?
    then Some((NumOf(e).value, Position(e.range.file.s, e.range.end.i)))
    else None
  }

  /** The anchored entry with the largest number, the first of them on a tie. */
  function LastAnchored(entries: seq<Entry>): Option<(int, Position)> {
    if entries == [] then None
    else
      var best, here := LastAnchored(entries[..|entries| - 1]), AnchorOf(entries[|entries| - 1]);
      if here.Some? && (best.None? || here.value.0 > best.value.0) then here else best
  }

  /** A cursor with a negative offset is ignored. */
  function UsableCursor(cursor: Option<Position>): Option<Position> {
    if cursor.Some? && cursor.value.offset >= 0 then cursor else None
  }

  /** The later of the last anchored end and the cursor, or the beginning of the first source. */
  function EffectiveStart(docs: seq<Doc>, entries: seq<Entry>, cursor: Option<Position>): Result<Position, PlanError> {
    var last, cur := LastAnchored(entries), UsableCursor(cursor);
    if last.Some? && cur.Some? then
      var l, c := last.value.1, cur.value;
      if c.rel == l.rel then Ok(Position(l.rel, if l.offset >= c.offset then l.offset else c.offset))
      else
        var lastIdx, curIdx := IndexOf(docs, l.rel), IndexOf(docs, c.rel);
        if lastIdx.None? then Ok(if curIdx.Some? then c else l)
        else if curIdx.None? || curIdx.value < lastIdx.value then Ok(l)
        else Ok(c)
    else if last.Some? then Ok(last.value.1)
    else if cur.Some? then Ok(cur.value)
    else if docs == [] then Err(NoSources)
    else Ok(Position(docs[0].rel, 0))
  }

  /** The first place at or after an offset whose document still has content, moving on to later documents at 0. */
  function SkipBlank(docs: seq<Doc>, i: nat, at: nat): Option<(nat, nat)>
    requires i < |docs| && at <= |docs[i].text|
    decreases |docs| - i
  {
    if !Blank(docs[i].text[at..]) then Some((i, at))
    else if i + 1 < |docs| then SkipBlank(docs, i + 1, 0)
    else None
  }

  lemma {:induction false} SkipBlankMeaning(docs: seq<Doc>, i: nat, at: nat)
    requires i < |docs| && at <= |docs[i].text|
    ensures var r := SkipBlank(docs, i, at);
            if r.Some? then
              var (j, s) := r.value;
              && j < |docs| && s <= |docs[j].text| && !Blank(docs[j].text[s..])
              && ((j == i && s == at)
                  || (j > i && s == 0 && Blank(docs[i].text[at..]) && AllBlank(docs, i + 1, j)))
            else Blank(docs[i].text[at..]) && AllBlank(docs, i + 1, |docs|)
    decreases |docs| - i
  {
    if Blank(docs[i].text[at..]) && i + 1 < |docs| {
      SkipBlankMeaning(docs, i + 1, 0);
      assert docs[i + 1].text[0..] == docs[i + 1].text;
    }
  }

  function NextSource(docs: seq<Doc>, rel: string): Option<string> {
    var i := IndexOf(docs, rel);
    if i.Some? && i.value + 1 < |docs| then Some(docs[i.value + 1].rel) else None
  }

  // ------------------------------------------------------------------- drafts

  function SettingInt(v: Value, fallback: nat): (r: nat)
    ensures r == fallback || (v == Int(r) && r >= 1)
  {
    if v.Int? && v.i >= 1 then v.i else fallback
  }

  /** What a model call yields: unreadable output, or the end anchors of its episodes. */
  datatype Attempt = Unreadable | Drafts(anchors: seq<string>)

  /** The schema: at least one episode, every anchor at least two characters. */
  predicate MeetsSchema(a: Attempt) {
    a.Drafts? && a.anchors != [] && forall i :: 0 <= i < |a.anchors| ==> |a.anchors[i]| >= 2
  }

  function Judge(nfc: string -> string, window: string, a: Attempt, snap: bool, maxEpisodes: nat): Option<seq<nat>>
    requires maxEpisodes >= 1
  {
    if !MeetsSchema(a) then None
    else
      var kept := if |a.anchors| > maxEpisodes then a.anchors[..maxEpisodes] else a.anchors;
      var r := Boundaries(nfc, window, kept, snap);
      if r.Accepted? then Some(r.ends) else None
  }

  /** The boundaries of the first attempt that passes, within the allowed number of tries. */
  function FirstAccepted(
      nfc: string -> string, window: string, attempts: seq<Attempt>, tries: nat, snap: bool, maxEpisodes: nat)
    : Option<seq<nat>>
    requires maxEpisodes >= 1
    decreases tries
  {
    if tries == 0 || attempts == [] then None
    else
      var here := Judge(nfc, window, attempts[0], snap, maxEpisodes);
      if here.Some? then here else FirstAccepted(nfc, window, attempts[1..], tries - 1, snap, maxEpisodes)
  }

  lemma {:induction false} AcceptedAttemptCutsTheWindow(
      nfc: string -> string, window: string, attempts: seq<Attempt>, tries: nat, snap: bool, maxEpisodes: nat)
    requires maxEpisodes >= 1
    ensures var r := FirstAccepted(nfc, window, attempts, tries, snap, maxEpisodes);
            r.Some? ==>
              && 0 < |r.value| <= maxEpisodes
              && StrictlyIncreasingFrom(0, r.value)
              && (forall i :: 0 <= i < |r.value| ==> r.value[i] <= |window|)
    decreases tries
  {
    if tries > 0 && attempts != [] {
      var a := attempts[0];
      if MeetsSchema(a) {
        var kept := if |a.anchors| > maxEpisodes then a.anchors[..maxEpisodes] else a.anchors;
        if Boundaries(nfc, window, kept, snap).Accepted? {
          AcceptedEndsCutTheWindow(nfc, window, kept, snap);
        }
      }
      AcceptedAttemptCutsTheWindow(nfc, window, attempts[1..], tries - 1, snap, maxEpisodes);
    }
  }

  // -------------------------------------------------------------- preparation

  /** Digests by source file. */
  type Recorded = map<string, Option<Fingerprint>>

  /** What one planning call carries from its reading of the project to its commit. */
  datatype PlanRequest = PlanRequest(
    startRef: Position, rel: string, start: nat, ends: seq<nat>, windowIsFinal: bool, used: Recorded)

  datatype Preparation = Exhausted | Ready(request: PlanRequest) | Refused(error: PlanError)

  /** The window runs to the end of the text when what remains is at most 1.2 windows. */
  function WindowEnd(length: nat, start: nat, windowChars: nat): (end: nat)
    requires start <= length
    ensures start <= end <= length
    ensures windowChars >= 1 && start < length ==> start < end
  {
    if 5 * (length - start) <= 6 * windowChars then length else start + windowChars
  }

  /** The checks made before the model is called. */
  function Gate(docs: seq<Doc>, project: Project, discovered: seq<int>, onDisk: set<int>): Result<Position, PlanError> {
    if project.episodes.NotAList? then Err(MalformedLedger)
    else
      var healed := RegisterOrphanEpisodeEntries(project.episodes.entries, discovered, onDisk);
      var missing, changed := EpisodesWithoutSourceRange(healed), MismatchedFingerprints(project.prints, docs);
      if missing != {} then Err(MissingSourceRange(missing))
      else if changed != {} then Err(SourceChanged(changed))
      else EffectiveStart(docs, healed, project.cursor)
  }

  function PreparationOf(
      nfc: string -> string, docs: seq<Doc>, st: State, onDisk: set<int>,
      windowSetting: Value, maxSetting: Value, attempts: seq<Attempt>): Preparation
  {
    var gate := Gate(docs, st.project, DiscoveredNums(st.derived), onDisk);
    if gate.Err? then Refused(gate.error)
    else
      var startRef := gate.value;
      var i := IndexOf(docs, startRef.rel);
      if i.None? then Refused(SourceMissing(startRef.rel))
      else if !(0 <= startRef.offset <= |docs[i.value].text|) then Refused(StartOutOfBounds)
      else
        var place := SkipBlank(docs, i.value, startRef.offset);
        if place.None? then Exhausted
        else
          SkipBlankMeaning(docs, i.value, startRef.offset);
          DraftWindow(nfc, docs, startRef, place.value.0, place.value.1, windowSetting, maxSetting, attempts)
  }

  function DraftWindow(
      nfc: string -> string, docs: seq<Doc>, startRef: Position, j: nat, start: nat,
      windowSetting: Value, maxSetting: Value, attempts: seq<Attempt>): (p: Preparation)
    requires j < |docs| && start <= |docs[j].text|
    ensures !p.Exhausted?
  {
    var text := docs[j].text;
    var end := WindowEnd(|text|, start, SettingInt(windowSetting, DEFAULT_PLANNING_WINDOW_CHARS));
    var final := end >= |text|;
    var ends := FirstAccepted(
      nfc, text[start..end], attempts, MAX_PLAN_ATTEMPTS, final, SettingInt(maxSetting, DEFAULT_PLANNING_MAX_EPISODES));
    if ends.None? then Refused(DraftsRejected)
    else Ready(PlanRequest(startRef, docs[j].rel, start, ends.value, final, AllRecorded(docs)))
  }

  /** The locked part of an exhausted plan that read no digests: they are recorded unless a source has changed. */
  function BackfillOf(docs: seq<Doc>, st: State, used: Recorded): Result<State, PlanError> {
    var changed, moved := MismatchedFingerprints(st.project.prints, docs), MismatchedFingerprints(Some(used), docs);
    if changed != {} then Err(SourceChanged(changed))
    else if moved != {} then Err(SourceChanged(moved))
    else Ok(st.(project := st.project.(prints := Some(AllRecorded(docs)))))
  }

  // ------------------------------------------------------------------- commit

  /** The largest positive number in the ledger, or 0. */
  function LargestNum(entries: seq<Entry>): nat {
    if entries == [] then 0
    else
      var rest, here := LargestNum(entries[..|entries| - 1]), NumOf(entries[|entries| - 1]);
      if here.Some? && here.value > rest then here.value else rest
  }

  function NonNull(entries: seq<Entry>): seq<Entry> {
    if entries == [] then []
    else NonNull(entries[..|entries| - 1]) + (if entries[|entries| - 1].Null? then [] else [entries[|entries| - 1]])
  }

  /** The source range of the request's episode `k`. */
  function NewCoords(req: PlanRequest, k: nat): Coords
    requires k < |req.ends|
  {
    Coords(req.rel, req.start + (if k == 0 then 0 else req.ends[k - 1]), req.start + req.ends[k])
  }

  function NewEntry(req: PlanRequest, k: nat, num: int, onDisk: set<int>): Entry
    requires k < |req.ends|
  {
    var c := NewCoords(req, k);
    Entry(Int(num), Fields(Text(c.rel), Int(c.start), Int(c.end)), if num in onDisk then Stale else Planned)
  }

  function NewEntries(req: PlanRequest, next: int, onDisk: set<int>, k: nat): seq<Entry>
    requires k <= |req.ends|
  {
    if k == 0 then [] else NewEntries(req, next, onDisk, k - 1) + [NewEntry(req, k - 1, next + k - 1, onDisk)]
  }

  /** The derived file of every numbered entry, later entries winning, once every range has been validated. */
  function DerivedWrites(docs: seq<Doc>, entries: seq<Entry>): Result<map<int, string>, PlanError> {
    if entries == [] then Ok(map[])
    else
      var earlier, e := DerivedWrites(docs, entries[..|entries| - 1]), entries[|entries| - 1];
      if earlier.Err? || NumOf(e).None? then earlier
      else
        var c := ParseSourceRange(e);
        if c.None? then Err(RangeInvalid(NumOf(e).value))
        else
          var i := IndexOf(docs, c.value.rel);
          if i.None? then Err(SourceMissing(c.value.rel))
          else if !(0 <= c.value.start <= c.value.end <= |docs[i.value].text|) then Err(RangeInvalid(NumOf(e).value))
          else Ok(earlier.value[NumOf(e).value := docs[i.value].text[c.value.start..c.value.end]])
  }

  /** The derived files after reconciliation: written as validated, unlisted leftovers gone. */
  function Reconciled(
      docs: seq<Doc>, entries: seq<Entry>, derived: map<int, string>): Result<map<int, string>, PlanError>
  {
    var writes := DerivedWrites(docs, entries);
    if writes.Err? then writes
    else Ok((map n | n in derived && (n < 0 || n in KnownNums(entries)) :: derived[n]) + writes.value)
  }

  /** What stops a commit: first a ledger without positions, then a moved start, then a changed source. */
  function CommitCheck(
      docs: seq<Doc>, project: Project, discovered: seq<int>, onDisk: set<int>, startRef: Position, used: Recorded):
      Option<PlanError>
  {
    if project.episodes.NotAList? then Some(MalformedLedger)
    else
      var healed := RegisterOrphanEpisodeEntries(project.episodes.entries, discovered, onDisk);
      var missing, start := EpisodesWithoutSourceRange(healed), EffectiveStart(docs, healed, project.cursor);
      var changed, moved := MismatchedFingerprints(project.prints, docs), MismatchedFingerprints(Some(used), docs);
      if missing != {} then Some(MissingSourceRange(missing))
      else if start.Err? then Some(start.error)
      else if start.value != startRef then Some(PlanningConflict)
      else if changed != {} then Some(SourceChanged(changed))
      else if moved != {} then Some(SourceChanged(moved))
      else None
  }

  /** The new state and whether the sources are used up; an error leaves the state as it was. */
  function CommitOf(docs: seq<Doc>, st: State, req: PlanRequest, onDisk: set<int>): Result<(State, bool), PlanError>
    requires req.ends != []
  {
    var refused := CommitCheck(docs, st.project, DiscoveredNums(st.derived), onDisk, req.startRef, req.used);
    if refused.Some? then Err(refused.value)
    else
      var healed := RegisterOrphanEpisodeEntries(st.project.episodes.entries, DiscoveredNums(st.derived), onDisk);
      var kept := NonNull(healed);
      var entries := SortEpisodesIfPossible(
        kept + NewEntries(req, LargestNum(kept) + 1, onDisk, |req.ends|));
      var derived := Reconciled(docs, entries, st.derived);
      if derived.Err? then Err(derived.error)
      else
        var end := req.start + req.ends[|req.ends| - 1];
        Ok((State(Project(Listed(entries), Some(Position(req.rel, end)), Some(AllRecorded(docs))), derived.value),
            UsedUp(docs, req, end)))
  }

  function UsedUp(docs: seq<Doc>, req: PlanRequest, end: nat): bool {
    var j := IndexOf(docs, req.rel);
    && req.windowIsFinal
    && j.Some? && end <= |docs[j.value].text| && Blank(docs[j.value].text[end..])
    && NextSource(docs, req.rel).None?
  }
}
