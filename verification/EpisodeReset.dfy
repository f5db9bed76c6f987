/**
  Resetting the plan: a full reset needs nothing of the ledger, a partial one re-validates the part
  it keeps, independently of the code that wrote it.
*/
module EpisodeReset {
  import opened Prelude
  import opened SourceText
  import opened EpisodeLedger
  import opened EpisodePlanner

  /** Every entry is an object with a positive number and no number occurs twice. */
  predicate CleanShape(entries: seq<Entry>) {
    && (forall i :: 0 <= i < |entries| ==> NumOf(entries[i]).Some? && NumOf(entries[i]).value >= 1)
    && (forall i, j :: 0 <= i < j < |entries| ==> NumOf(entries[i]) != NumOf(entries[j]))
  }

  /** The first entry that carries a number. */
  function EntryFor(entries: seq<Entry>, num: int): (r: Option<Entry>)
    ensures r.Some? ==> r.value in entries && NumOf(r.value) == Some(num)
    ensures r.None? ==> num !in KnownNums(entries)
  {
    if entries == [] then None
    else if NumOf(entries[0]) == Some(num) then Some(entries[0])
    else
      assert forall i :: 0 < i < |entries| ==> entries[i] == entries[1..][i - 1];
      EntryFor(entries[1..], num)
  }

  /** The coordinates of episodes 1..k, when each of them has an entry with coordinates. */
  function RetainedCoords(entries: seq<Entry>, k: nat): Option<seq<Coords>> {
    if k == 0 then Some([])
    else
      var earlier, here := RetainedCoords(entries, k - 1), EntryFor(entries, k);
      if earlier.None? || here.None? || ParseSourceRange(here.value).None? then None
      else Some(earlier.value + [ParseSourceRange(here.value).value])
  }

  /** What a partial reset to before `from` demands of ledger and sources. */
  predicate Resettable(docs: seq<Doc>, project: Project, from: int) {
    && from >= 2
    && project.episodes.Listed?
    && var entries := project.episodes.entries;
    && CleanShape(entries)
    && from in KnownNums(entries)
    && MismatchedFingerprints(project.prints, docs) == {}
    && var kept := RetainedCoords(entries, from - 1);
    && kept.Some?
    && Chain(docs, kept.value)
  }

  lemma {:induction false} RetainedCoordsLength(entries: seq<Entry>, k: nat)
    requires RetainedCoords(entries, k).Some?
    ensures |RetainedCoords(entries, k).value| == k
  {
    if k > 0 {
      RetainedCoordsLength(entries, k - 1);
    }
  }

  /** The end of episode `from - 1`, or nothing when the reset is refused. */
  function PartialResetCursor(docs: seq<Doc>, project: Project, from: int): Option<Position> {
    if Resettable(docs, project, from) then
      var kept := RetainedCoords(project.episodes.entries, from - 1).value;
      RetainedCoordsLength(project.episodes.entries, from - 1);
      Some(Position(kept[from - 2].rel, kept[from - 2].end))
    else None
  }

  predicate InScope(from: int, num: int) {
    from == 1 || num >= from
  }

  /** Consumed numbers in scope: marked so in the ledger, or with later products on disk. */
  function ConsumedNums(project: Project, from: int, onDisk: set<int>): set<int> {
    var entries := if project.episodes.Listed? then project.episodes.entries else [];
    (set i | 0 <= i < |entries| && NumOf(entries[i]).Some? && entries[i].status == Consumed
              && InScope(from, NumOf(entries[i]).value) :: NumOf(entries[i]).value)
    + (set n | n in onDisk && InScope(from, n))
  }

  function Retained(entries: seq<Entry>, from: int): seq<Entry> {
    if entries == [] then []
    else
      var last := entries[|entries| - 1];
      Retained(entries[..|entries| - 1], from) + (if last.Entry? && SortKey(last) < from then [last] else [])
  }

  datatype ResetOutcome = ResetRefused | NeedsConfirmation(consumed: set<int>) | ResetConflict | ResetDone(st: State)

  /** `foreseen` is the consumed set read before the lock; it gates confirmation and bounds what the commit may find. */
  function ResetOf(
      docs: seq<Doc>, st: State, from: int, confirm: bool, foreseen: set<int>, onDisk: set<int>): ResetOutcome
  {
    if from < 1 then ResetRefused
    else if foreseen != {} && !confirm then NeedsConfirmation(foreseen)
    else if from > 1 && !Resettable(docs, st.project, from) then ResetRefused
    else if !(ConsumedNums(st.project, from, onDisk) <= foreseen) then ResetConflict
    else
      var derived := map n | n in st.derived && !(n >= 0 && InScope(from, n)) :: st.derived[n];
      if from == 1 then ResetDone(State(Project(Listed([]), None, None), derived))
      else
        var entries := StableSort(Retained(st.project.episodes.entries, from));
        ResetDone(State(
          Project(Listed(entries), PartialResetCursor(docs, st.project, from), st.project.prints), derived))
  }
}
