/**
  What a reset does to the files under `source/`: derived episode files that the ledger can recreate
  are deleted, all others are kept under fresh names that no discovery picks up again.
*/
module EpisodeFiles {
  import opened Decimals
  import opened Prelude
  import opened EpisodeLedger
  import opened EpisodePlanner
  import opened EpisodeReset

  // ---------------------------------------------------------------- directory

  /** A directory entry; `content` stands for whatever a rename carries along. */
  datatype Node =
    | Regular(content: string)
    | LinkToFile(content: string)
    | LinkToDirectory
    | DanglingLink(content: string)
    | Subdirectory

  predicate IsFile(node: Node) {
    node.Regular? || node.LinkToFile?
  }

  predicate IsSymlink(node: Node) {
    node.LinkToFile? || node.LinkToDirectory? || node.DanglingLink?
  }

  type Directory = map<string, Node>

  predicate EndsWith(s: string, suffix: string) {
    |s| >= |suffix| && s[|s| - |suffix|..] == suffix
  }

  predicate IsEpisodeFileName(name: string) {
    |name| > 12 && name[..8] == "episode_" && EndsWith(name, ".txt") && IsDigits(name[8..|name| - 4])
  }

  function EpisodeFileNum(name: string): nat
    requires IsEpisodeFileName(name)
  {
    DecimalValue(name[8..|name| - 4])
  }

  /** Names that discovery attributes to an episode, dangling links included. */
  predicate IsAlias(dir: Directory, name: string) {
    name in dir && IsEpisodeFileName(name) && (IsFile(dir[name]) || IsSymlink(dir[name]))
  }

  /** The episode numbers with a readable derived file. */
  function DiscoveredEpisodes(dir: Directory): set<int> {
    set name | name in dir && IsAlias(dir, name) && IsFile(dir[name]) :: EpisodeFileNum(name)
  }

  function LowerAscii(s: string): string {
    seq(|s|, i requires 0 <= i < |s| => if 'A' <= s[i] <= 'Z' then ((s[i] as int + 32) as char) else s[i])
  }

  predicate IsSourceName(name: string) {
    && name != "" && name[0] != '_' && name[0] != '.'
    && ((|name| > 4 && LowerAscii(name[|name| - 4..]) == ".txt")
        || (|name| > 3 && LowerAscii(name[|name| - 3..]) == ".md"))
    && !IsEpisodeFileName(name)
  }

  /** The candidate source files and what they hold. */
  function Sources(dir: Directory): Directory {
    map name | name in dir && IsFile(dir[name]) && IsSourceName(name) :: dir[name]
  }

  // -------------------------------------------------------------- fresh names

  function Core(name: string, k: nat): string {
    if k == 0 then name else name + "." + DecimalString(k)
  }

  /** The `k`-th name tried for a kept file. */
  function Candidate(name: string, k: nat): string {
    "_" + Core(name, k) + ".bak"
  }

  /** Only digits follow the dot, so the dot's place is determined. */
  lemma LastDotSplits(x: string, d: string, y: string, e: string)
    requires IsDigits(d) && IsDigits(e) && x + "." + d == y + "." + e
    ensures x == y && d == e
  {
    var s := x + "." + d;
    var t := y + "." + e;
    assert s[|x|] == '.' && t[|y|] == '.';
    assert forall i :: |x| < i < |s| ==> s[i] == d[i - |x| - 1];
    assert forall i :: |y| < i < |t| ==> t[i] == e[i - |y| - 1];
    assert |x| == |y|;
    assert s[..|x|] == x && t[..|y|] == y && s[|x| + 1..] == d && t[|y| + 1..] == e;
  }

  /** An episode file name ends in a letter, a numbered core in a digit. */
  lemma CoresAreDistinct(a: string, j: nat, b: string, k: nat)
    requires IsEpisodeFileName(a) && IsEpisodeFileName(b)
    requires Core(a, j) == Core(b, k)
    ensures a == b && j == k
  {
    hide IsDigits, DecimalString;
    CoreEnds(a, j);
    CoreEnds(b, k);
    if j > 0 && k > 0 {
      LastDotSplits(a, DecimalString(j), b, DecimalString(k));
      DecimalRoundTrip(j);
      DecimalRoundTrip(k);
    }
  }

  lemma CoreEnds(name: string, k: nat)
    requires IsEpisodeFileName(name)
    ensures Core(name, k) != "" && (Core(name, k)[|Core(name, k)| - 1] == 't' <==> k == 0)
  {
    assert name[|name| - 1] == name[|name| - 4..][3];
    var d := DecimalString(k);
    assert k > 0 ==> Core(name, k)[|Core(name, k)| - 1] == d[|d| - 1];
  }

  /** Different attempts, or attempts for different episode files, never produce the same name. */
  lemma CandidatesAreDistinct(a: string, j: nat, b: string, k: nat)
    requires IsEpisodeFileName(a) && IsEpisodeFileName(b)
    requires Candidate(a, j) == Candidate(b, k)
    ensures a == b && j == k
  {
    hide IsEpisodeFileName, Core;
    var s, t := Candidate(a, j), Candidate(b, k);
    assert s[1..|s| - 4] == Core(a, j) && t[1..|t| - 4] == Core(b, k);
    CoresAreDistinct(a, j, b, k);
  }

  function CandidatesBelow(name: string, k: nat): set<string> {
    if k == 0 then {} else CandidatesBelow(name, k - 1) + {Candidate(name, k - 1)}
  }

  lemma {:induction false} CandidatesBelowCount(dir: Directory, name: string, k: nat)
    requires IsEpisodeFileName(name)
    requires forall j :: 0 <= j < k ==> Candidate(name, j) in dir
    ensures |CandidatesBelow(name, k)| == k && CandidatesBelow(name, k) <= dir.Keys
    ensures forall n :: n in CandidatesBelow(name, k) ==> exists j :: 0 <= j < k && n == Candidate(name, j)
  {
    hide Candidate, IsEpisodeFileName;
    if k > 0 {
      CandidatesBelowCount(dir, name, k - 1);
      forall j | 0 <= j < k - 1 ensures Candidate(name, j) != Candidate(name, k - 1) {
        if Candidate(name, j) == Candidate(name, k - 1) {
          CandidatesAreDistinct(name, j, name, k - 1);
        }
      }
      assert Candidate(name, k - 1) !in CandidatesBelow(name, k - 1);
    }
  }

  /** `k` occupied candidates are `k` different entries, so the search ends within the size of the directory. */
  lemma OccupiedCandidatesFit(dir: Directory, name: string, k: nat)
    requires IsEpisodeFileName(name) && forall j :: 0 <= j < k ==> Candidate(name, j) in dir
    ensures k <= |dir|
  {
    CandidatesBelowCount(dir, name, k);
    SubsetCount(CandidatesBelow(name, k), dir.Keys);
    assert |dir.Keys| == |dir|;
  }

  /** The first free attempt at or after `k`. */
  function FirstFree(dir: Directory, name: string, k: nat): (r: nat)
    requires IsEpisodeFileName(name) && forall j :: 0 <= j < k ==> Candidate(name, j) in dir
    ensures Candidate(name, r) !in dir && forall j :: 0 <= j < r ==> Candidate(name, j) in dir
    decreases |dir| - k
  {
    if Candidate(name, k) in dir then
      OccupiedCandidatesFit(dir, name, k + 1);
      FirstFree(dir, name, k + 1)
    else k
  }

  function ArchiveName(dir: Directory, name: string): string
    requires IsEpisodeFileName(name)
  {
    Candidate(name, FirstFree(dir, name, 0))
  }

  method FindArchiveName(dir: Directory, name: string) returns (target: string)
    requires IsEpisodeFileName(name)
    ensures target == ArchiveName(dir, name)
  {
    var index := 0;
    target := Candidate(name, 0);
    while target in dir
      invariant target == Candidate(name, index)
      invariant forall j :: 0 <= j < index ==> Candidate(name, j) in dir
      invariant FirstFree(dir, name, index) == FirstFree(dir, name, 0)
      decreases |dir| - index
    {
      OccupiedCandidatesFit(dir, name, index + 1);
      index := index + 1;
      target := Candidate(name, index);
    }
  }

  // --------------------------------------------------------------- disposition

  /** The number has an entry, and every entry with it carries coordinates. */
  predicate Recreatable(entries: seq<Entry>, num: int) {
    && num in KnownNums(entries)
    && forall i :: 0 <= i < |entries| && NumOf(entries[i]) == Some(num) ==> ParseSourceRange(entries[i]).Some?
  }

  function InScopeAliases(dir: Directory, from: int): (names: set<string>)
    ensures forall name :: name in names ==> IsEpisodeFileName(name)
  {
    set name | name in dir && IsAlias(dir, name) && InScope(from, EpisodeFileNum(name))
  }

  function Deletes(dir: Directory, entries: seq<Entry>, from: int): (names: set<string>)
    ensures forall name :: name in names ==> IsEpisodeFileName(name)
  {
    set name | name in InScopeAliases(dir, from) && Recreatable(entries, EpisodeFileNum(name))
  }

  function Archives(dir: Directory, entries: seq<Entry>, from: int): (names: set<string>)
    ensures forall name :: name in names ==> IsEpisodeFileName(name)
  {
    set name | name in InScopeAliases(dir, from) && !Recreatable(entries, EpisodeFileNum(name))
  }

  const REMAINING := "_remaining.txt"

  /** The directory after the files of a reset have been disposed of. */
  function AfterReset(dir: Directory, entries: seq<Entry>, from: int): Directory {
    var archives := Archives(dir, entries, from);
    var moved := Moved(dir, archives);
    var kept := (dir - Deletes(dir, entries, from) - archives) + moved;
    if REMAINING in dir && IsFile(dir[REMAINING]) then kept - {REMAINING} else kept
  }

  lemma ArchiveNamesDiffer(dir: Directory, names: set<string>)
    requires forall name :: name in names ==> IsEpisodeFileName(name)
    ensures forall a, b :: a in names && b in names && ArchiveName(dir, a) == ArchiveName(dir, b) ==> a == b
  {
    forall a, b | a in names && b in names && ArchiveName(dir, a) == ArchiveName(dir, b) ensures a == b {
      CandidatesAreDistinct(a, FirstFree(dir, a, 0), b, FirstFree(dir, b, 0));
    }
  }

  /** The kept files under their new names. */
  function Moved(dir: Directory, names: set<string>): Directory
    requires forall name :: name in names ==> IsEpisodeFileName(name) && name in dir
  {
    ArchiveNamesDiffer(dir, names);
    map name | name in names :: ArchiveName(dir, name) := dir[name]
  }

  // ----------------------------------------------------------------- theorems

  lemma EpisodeFileNameInitial(name: string)
    ensures IsEpisodeFileName(name) ==> name[0] == 'e'
  {
    assert IsEpisodeFileName(name) ==> name[0] == name[..8][0];
  }

  /** A kept file's new name was unused and is neither an episode file name nor a source name. */
  lemma ArchiveNameIsFresh(dir: Directory, name: string)
    requires IsEpisodeFileName(name)
    ensures var target := ArchiveName(dir, name);
            && target !in dir
            && target[0] == '_' && EndsWith(target, ".bak")
            && !IsEpisodeFileName(target) && !IsSourceName(target) && target != REMAINING
  {
    hide IsDigits, Core, FirstFree;
    var target := ArchiveName(dir, name);
    assert target[|target| - 4..] == ".bak";
    EpisodeFileNameInitial(target);
    assert ".bak"[1] == 'b' && ".txt"[1] == 't';
    assert target[|target| - 3] == target[|target| - 4..][1] != REMAINING[|REMAINING| - 3];
  }

  /** What becomes of every name: deleted only on full evidence, else moved with its content or left alone. */
  lemma ResetAccountsForEveryFile(dir: Directory, entries: seq<Entry>, from: int, name: string)
    requires name in dir
    ensures var after := AfterReset(dir, entries, from);
            if name in InScopeAliases(dir, from) then
              var num := EpisodeFileNum(name);
              && name !in after
              && (!Recreatable(entries, num) ==>
                    ArchiveName(dir, name) in after && after[ArchiveName(dir, name)] == dir[name])
            else if name == REMAINING && IsFile(dir[name]) then name !in after
            else name in after && after[name] == dir[name]
  {
    hide IsDigits, FirstFree, Recreatable, ArchiveName, IsAlias;
    var archives := Archives(dir, entries, from);
    forall a | a in archives ensures ArchiveName(dir, a) !in dir && ArchiveName(dir, a) != REMAINING {
      ArchiveNameIsFresh(dir, a);
    }
    if name in archives {
      assert ArchiveName(dir, name) in Moved(dir, archives);
      ArchiveNamesDiffer(dir, archives);
    }
  }

  /** A full reset leaves nothing that discovery attributes to an episode, whatever the ledger holds. */
  lemma FullResetLeavesNoEpisodeFile(dir: Directory, entries: seq<Entry>)
    ensures var after := AfterReset(dir, entries, 1);
            && (forall name :: name in after ==> !IsAlias(after, name))
            && DiscoveredEpisodes(after) == {}
            && forall onDisk :: RegisterOrphanEpisodeEntries([], Ascending(DiscoveredEpisodes(after)), onDisk) == []
  {
    hide IsDigits, FirstFree, Recreatable, ArchiveName;
    var after := AfterReset(dir, entries, 1);
    var archives := Archives(dir, entries, 1);
    forall name | name in after ensures !IsAlias(after, name) {
      if name in dir {
        ResetAccountsForEveryFile(dir, entries, 1, name);
      }
      forall a | a in archives ensures !IsEpisodeFileName(ArchiveName(dir, a)) {
        ArchiveNameIsFresh(dir, a);
      }
    }
    assert Ascending(DiscoveredEpisodes(after)) == [];
  }

  /** A reset neither adds nor removes nor alters a candidate source. */
  lemma ResetLeavesTheSources(dir: Directory, entries: seq<Entry>, from: int)
    ensures Sources(AfterReset(dir, entries, from)) == Sources(dir)
  {
    hide IsDigits, FirstFree, Recreatable, ArchiveName, EndsWith, LowerAscii;
    var after := AfterReset(dir, entries, from);
    var archives := Archives(dir, entries, from);
    forall a | a in archives ensures ArchiveName(dir, a) !in dir && !IsSourceName(ArchiveName(dir, a)) {
      ArchiveNameIsFresh(dir, a);
    }
    forall name | name in dir && IsSourceName(name) ensures name in after && after[name] == dir[name] {
      ResetAccountsForEveryFile(dir, entries, from, name);
    }
    forall name | name in after && IsSourceName(name) ensures name in dir {
      assert name !in Moved(dir, archives);
    }
  }

  // ---------------------------------------------------------------- imperative

  /** The `source/` directory, changed entry by entry. */
  class SourceDirectory {
    var files: Directory

    constructor (files: Directory)
      ensures this.files == files
    {
      this.files := files;
    }

    /** The files to delete and the files to keep, collected in whatever order the directory is read. */
    method Scan(entries: seq<Entry>, from: int) returns (deletes: set<string>, archives: set<string>)
      ensures deletes == Deletes(files, entries, from) && archives == Archives(files, entries, from)
    {
      hide IsDigits;
      deletes, archives := {}, {};
      var todo := files.Keys;
      while todo != {}
        invariant todo <= files.Keys
        invariant deletes == set name | name in Deletes(files, entries, from) && name !in todo
        invariant archives == set name | name in Archives(files, entries, from) && name !in todo
        decreases todo
      {
        var name :| name in todo;
        todo := todo - {name};
        if IsAlias(files, name) && InScope(from, EpisodeFileNum(name)) {
          var canRecreate := EveryEntryHasRange(entries, EpisodeFileNum(name));
          if canRecreate {
            deletes := deletes + {name};
          } else {
            archives := archives + {name};
          }
        }
      }
    }

    /** The file side of a reset. */
    method Reset(entries: seq<Entry>, from: int)
      modifies this
      ensures files == AfterReset(old(files), entries, from)
    {
      hide IsDigits, Recreatable, ArchiveName;
      EpisodeFileNameInitial(REMAINING);
      var deletes, archives := Scan(entries, from);
      forall a | a in archives ensures ArchiveName(files, a) != REMAINING {
        ArchiveNameIsFresh(files, a);
      }
      ApplyFiles(deletes, archives);
    }

    /** All targets are chosen before the first rename. */
    method ApplyFiles(deletes: set<string>, archives: set<string>)
      requires archives <= files.Keys && deletes !! archives
      requires forall name :: name in archives ==> IsEpisodeFileName(name)
      requires REMAINING !in archives
      modifies this
      ensures var kept := (old(files) - deletes - archives) + Moved(old(files), archives);
              files == if REMAINING in kept && IsFile(kept[REMAINING]) then kept - {REMAINING} else kept
    {
      hide IsEpisodeFileName, ArchiveName, Moved;
      var targets := ChooseTargets(archives);
      var todo := deletes;
      while todo != {}
        invariant todo <= deletes
        invariant files == old(files) - (deletes - todo)
        decreases todo
      {
        var name :| name in todo;
        todo := todo - {name};
        files := files - {name};
      }
      RenameAll(archives, targets, old(files));
      if REMAINING in files && IsFile(files[REMAINING]) {
        files := files - {REMAINING};
      }
    }

    method ChooseTargets(archives: set<string>) returns (targets: map<string, string>)
      requires forall name :: name in archives ==> IsEpisodeFileName(name)
      ensures targets.Keys == archives && forall name :: name in archives ==> targets[name] == ArchiveName(files, name)
    {
      targets := map[];
      var todo := archives;
      while todo != {}
        invariant todo <= archives && targets.Keys == archives - todo
        invariant forall name :: name in targets ==> targets[name] == ArchiveName(files, name)
        decreases todo
      {
        var name :| name in todo;
        todo := todo - {name};
        var target := FindArchiveName(files, name);
        targets := targets[name := target];
      }
    }

    /** Renames in any order; no target collides with a file or with another target. */
    method RenameAll(archives: set<string>, targets: map<string, string>, ghost before: Directory)
      requires targets.Keys == archives
      requires forall name :: name in archives ==> name in before && name in files && files[name] == before[name]
      requires forall name :: name in archives ==> IsEpisodeFileName(name) && targets[name] == ArchiveName(before, name)
      requires files.Keys <= before.Keys
      modifies this
      ensures files == (old(files) - archives) + Moved(before, archives)
    {
      hide IsEpisodeFileName, ArchiveName, Moved;
      var todo := archives;
      MovedNothing(before);
      ghost var start := files;
      assert start - {} + map[] == start && archives - todo == {};
      while todo != {}
        invariant todo <= archives
        invariant files == (start - (archives - todo)) + Moved(before, archives - todo)
        decreases todo
      {
        var name :| name in todo;
        ghost var done := archives - todo;
        RenameOneMore(start, before, done, name);
        files := (files - {name})[targets[name] := files[name]];
        todo := todo - {name};
        assert archives - todo == done + {name};
      }
      assert archives - todo == archives;
    }
  }

  lemma MovedNothing(dir: Directory)
    ensures Moved(dir, {}) == map[]
  {
  }

  /** One rename more: the file is found where it was, and its target takes nothing else's place. */
  lemma RenameOneMore(start: Directory, before: Directory, done: set<string>, name: string)
    requires forall n :: n in done + {name} ==>
        IsEpisodeFileName(n) && n in before && n in start && start[n] == before[n]
    requires start.Keys <= before.Keys && name !in done
    ensures var files := (start - done) + Moved(before, done);
            && name in files && files[name] == before[name]
            && (files - {name})[ArchiveName(before, name) := files[name]]
               == (start - (done + {name})) + Moved(before, done + {name})
  {
    hide IsEpisodeFileName, ArchiveName;
    ArchiveNamesDiffer(before, done + {name});
    forall a | a in done + {name} ensures ArchiveName(before, a) !in before {
      ArchiveNameIsFresh(before, a);
    }
    assert name !in Moved(before, done);
  }

  method EveryEntryHasRange(entries: seq<Entry>, num: int) returns (all: bool)
    ensures all <==> Recreatable(entries, num)
  {
    var found := false;
    all := true;
    for i := 0 to |entries|
      invariant found <==> num in KnownNums(entries[..i])
      invariant all <==> forall k :: 0 <= k < i && NumOf(entries[k]) == Some(num) ==> ParseSourceRange(entries[k]).Some?
    {
      assert entries[..i + 1] == entries[..i] + [entries[i]];
      KnownNumsSnoc(entries[..i], entries[i]);
      if NumOf(entries[i]) == Some(num) {
        found := true;
        if ParseSourceRange(entries[i]).None? {
          all := false;
        }
      }
    }
    assert entries[..|entries|] == entries;
    all := all && found;
  }
}
