/**
  Renaming an asset: which files move, where their path fields point afterwards, and that no file is lost.
  The directories are case-sensitive and hold no second name for one file.
*/
module AssetRename {
  import opened Prelude

  // --------------------------------------------------------------------- names

  /** Unicode composition and the digit test, which rest on Unicode tables. */
  datatype Tables = Tables(nfc: string -> string, digits: string -> bool)

  /** Composition is idempotent and does not reach across an underscore followed by digits. */
  ghost predicate Lawful(t: Tables) {
    && (forall s :: t.nfc(t.nfc(s)) == t.nfc(s))
    && (forall s, d :: t.digits(d) ==> t.nfc(s + "_" + d) == t.nfc(s) + "_" + d)
  }

  predicate StartsWith(s: string, prefix: string) {
    |prefix| <= |s| && s[..|prefix|] == prefix
  }

  /** The stem is the old name and a sequence number. */
  predicate IsNumbered(t: Tables, stem: string, oldName: string) {
    var prefix := t.nfc(oldName) + "_";
    StartsWith(t.nfc(stem), prefix) && t.digits(t.nfc(stem)[|prefix|..])
  }

  function RenamedStem(t: Tables, stem: string, oldName: string, newName: string, allowSequence: bool): Option<string> {
    if t.nfc(stem) == t.nfc(oldName) then Some(newName)
    else if allowSequence && IsNumbered(t, stem, oldName) then
      Some(newName + "_" + t.nfc(stem)[|t.nfc(oldName)| + 1..])
    else None
  }

  /** Renaming there and back is the identity on composed stems. */
  lemma ThereAndBack(t: Tables, stem: string, oldName: string, newName: string, allowSequence: bool)
    requires Lawful(t) && t.nfc(stem) == stem && t.nfc(oldName) == oldName
    requires RenamedStem(t, stem, oldName, newName, allowSequence).Some?
    ensures RenamedStem(t, RenamedStem(t, stem, oldName, newName, allowSequence).value, newName, oldName, allowSequence)
        == Some(stem)
  {
    if stem != oldName {
      var d := stem[|oldName| + 1..];
      var there := newName + "_" + d;
      assert t.nfc(there) == t.nfc(newName) + "_" + d;
      assert t.nfc(there)[..|t.nfc(newName)| + 1] == t.nfc(newName) + "_";
      assert t.nfc(there)[|t.nfc(newName)| + 1..] == d;
      assert stem == oldName + "_" + d;
    }
  }

  /** Where the stem of a file name ends: at its last dot, if that is neither its first nor its last character. */
  function LastDot(name: string): (i: int)
    ensures -1 <= i < |name|
  {
    if name == "" then -1
    else if name[|name| - 1] == '.' then |name| - 1
    else LastDot(name[..|name| - 1])
  }

  function Stem(name: string): string {
    if 0 < LastDot(name) < |name| - 1 then name[..LastDot(name)] else name
  }

  function Suffix(name: string): string {
    if 0 < LastDot(name) < |name| - 1 then name[LastDot(name)..] else ""
  }

  lemma StemAndSuffix(name: string)
    ensures Stem(name) + Suffix(name) == name
  {
  }

  // --------------------------------------------------------------- directories

  /** The asset type's directory and its two upload directories. */
  datatype Place = Top | Refs | RefsAudio

  datatype Location = Location(place: Place, name: string)

  datatype Node = File(content: string) | Folder

  type Tree = map<Location, Node>

  datatype Rename = Rename(tables: Tables, oldName: string, newName: string, sequencedRefs: bool)

  /** Numbered names are the upload side's own only in the `refs` of a type that collects image sequences. */
  predicate AllowsSequence(r: Rename, place: Place) {
    place.Refs? && r.sequencedRefs
  }

  function NewName(r: Rename, name: string, allowSequence: bool): string {
    var stem := RenamedStem(r.tables, Stem(name), r.oldName, r.newName, allowSequence);
    if stem.Some? then stem.value + Suffix(name) else name
  }

  function Destination(r: Rename, at: Location): Location {
    Location(at.place, NewName(r, at.name, AllowsSequence(r, at.place)))
  }

  predicate Moves(r: Rename, tree: Tree, at: Location) {
    at in tree && tree[at].File? && Destination(r, at) != at
  }

  /** Some destination is taken, or two files want the same one. */
  ghost predicate Collides(r: Rename, tree: Tree, at: Location) {
    && Moves(r, tree, at)
    && (|| Destination(r, at) in tree
        || exists b :: b != at && Moves(r, tree, b) && Destination(r, b) == Destination(r, at))
  }

  type Plan = seq<(Location, Location)>

  /** The plan moves exactly the files to be renamed, each to its own free place. */
  ghost predicate GoodPlan(r: Rename, tree: Tree, moves: Plan) {
    && (forall i :: 0 <= i < |moves| ==> Moves(r, tree, moves[i].0) && moves[i].1 == Destination(r, moves[i].0))
    && (forall at :: Moves(r, tree, at) ==> exists i :: 0 <= i < |moves| && moves[i].0 == at)
    && (forall i :: 0 <= i < |moves| ==> moves[i].1 !in tree)
    && (forall i, j :: 0 <= i < j < |moves| ==> moves[i].0 != moves[j].0 && moves[i].1 != moves[j].1)
  }

  /** Planning succeeds exactly when nothing collides; the directory is read in any order. */
  method PlanRenames(r: Rename, tree: Tree) returns (plan: Result<Plan, Location>)
    ensures plan.Ok? <==> forall at :: !Collides(r, tree, at)
    ensures plan.Ok? ==> GoodPlan(r, tree, plan.value)
    ensures plan.Err? ==> exists at :: Collides(r, tree, at) && Destination(r, at) == plan.error
  {
    hide Destination, NewName, PartialPlan, Collides;
    var moves: Plan := [];
    var planned: set<Location> := {};
    var todo := tree.Keys;
    StartPlanning(r, tree);
    while todo != {}
      invariant todo <= tree.Keys
      invariant PartialPlan(r, tree, todo, moves, planned)
      decreases todo
    {
      var at :| at in todo;
      if Moves(r, tree, at) {
        var destination := Destination(r, at);
        if destination in planned || destination in tree {
          CollisionFound(r, tree, todo, moves, planned, at);
          return Err(destination);
        }
        PlanMore(r, tree, todo, moves, planned, at);
        planned := planned + {destination};
        moves := moves + [(at, destination)];
      } else {
        PlanUnchanged(r, tree, todo, moves, planned, at);
      }
      todo := todo - {at};
    }
    PlanComplete(r, tree, moves, planned);
    plan := Ok(moves);
  }

  /** The plan for the entries already read. */
  ghost predicate PartialPlan(r: Rename, tree: Tree, todo: set<Location>, moves: Plan, planned: set<Location>) {
    && (forall i :: 0 <= i < |moves| ==>
          Moves(r, tree, moves[i].0) && moves[i].0 !in todo && moves[i].1 == Destination(r, moves[i].0))
    && (forall at :: Moves(r, tree, at) && at !in todo ==> exists i :: 0 <= i < |moves| && moves[i].0 == at)
    && (forall i :: 0 <= i < |moves| ==> moves[i].1 !in tree && moves[i].1 in planned)
    && (forall l :: l in planned ==> exists i :: 0 <= i < |moves| && moves[i].1 == l)
    && (forall i, j :: 0 <= i < j < |moves| ==> moves[i].0 != moves[j].0 && moves[i].1 != moves[j].1)
  }

  lemma StartPlanning(r: Rename, tree: Tree)
    ensures PartialPlan(r, tree, tree.Keys, [], {})
  {
  }

  lemma CollisionFound(r: Rename, tree: Tree, todo: set<Location>, moves: Plan, planned: set<Location>, at: Location)
    requires PartialPlan(r, tree, todo, moves, planned) && at in todo && Moves(r, tree, at)
    requires Destination(r, at) in planned || Destination(r, at) in tree
    ensures Collides(r, tree, at)
  {
    hide Destination;
    if Destination(r, at) in planned {
      var i :| 0 <= i < |moves| && moves[i].1 == Destination(r, at);
      assert moves[i].0 != at && Moves(r, tree, moves[i].0);
    }
  }

  lemma PlanMore(r: Rename, tree: Tree, todo: set<Location>, moves: Plan, planned: set<Location>, at: Location)
    requires PartialPlan(r, tree, todo, moves, planned) && at in todo && Moves(r, tree, at)
    requires Destination(r, at) !in planned && Destination(r, at) !in tree
    ensures PartialPlan(r, tree, todo - {at}, moves + [(at, Destination(r, at))], planned + {Destination(r, at)})
  {
    hide Destination, Moves;
    var more := moves + [(at, Destination(r, at))];
    assert more[|moves|] == (at, Destination(r, at)) && forall i :: 0 <= i < |moves| ==> more[i] == moves[i];
  }

  lemma PlanUnchanged(r: Rename, tree: Tree, todo: set<Location>, moves: Plan, planned: set<Location>, at: Location)
    requires PartialPlan(r, tree, todo, moves, planned) && at in todo && !Moves(r, tree, at)
    ensures PartialPlan(r, tree, todo - {at}, moves, planned)
  {
    hide Destination, Moves;
  }

  lemma PlanComplete(r: Rename, tree: Tree, moves: Plan, planned: set<Location>)
    requires PartialPlan(r, tree, {}, moves, planned)
    ensures GoodPlan(r, tree, moves) && forall at :: !Collides(r, tree, at)
  {
    hide Destination, Moves;
    forall a, b | a != b && Moves(r, tree, a) && Moves(r, tree, b) ensures Destination(r, a) != Destination(r, b) {
      var i :| 0 <= i < |moves| && moves[i].0 == a;
      var j :| 0 <= j < |moves| && moves[j].0 == b;
    }
    forall a | Moves(r, tree, a) ensures Destination(r, a) !in tree {
      var i :| 0 <= i < |moves| && moves[i].0 == a;
    }
  }

  // -------------------------------------------------------------------- moving

  function Applied(tree: Tree, moves: Plan): Tree
    requires forall i :: 0 <= i < |moves| ==> moves[i].0 in tree
    requires forall i, j :: 0 <= i < j < |moves| ==> moves[i].0 != moves[j].0
  {
    if moves == [] then tree
    else
      var n := |moves| - 1;
      (Applied(tree, moves[..n]) - {moves[n].0})[moves[n].1 := tree[moves[n].0]]
  }

  /** Where everything is after the plan. */
  function NewPlace(r: Rename, tree: Tree, at: Location): Location {
    if Moves(r, tree, at) then Destination(r, at) else at
  }

  lemma PlanFacts(r: Rename, tree: Tree, moves: Plan)
    requires GoodPlan(r, tree, moves)
    ensures forall i :: 0 <= i < |moves| ==> moves[i].0 in tree && moves[i].1 !in tree
    ensures forall i, j :: 0 <= i < j < |moves| ==> moves[i].0 != moves[j].0 && moves[i].1 != moves[j].1
  {
  }

  lemma AppliedNothing(tree: Tree)
    ensures Applied(tree, []) == tree
  {
  }

  lemma AppliedOneMore(tree: Tree, moves: Plan, k: nat)
    requires 0 < k <= |moves|
    requires forall i :: 0 <= i < |moves| ==> moves[i].0 in tree
    requires forall i, j :: 0 <= i < j < |moves| ==> moves[i].0 != moves[j].0
    ensures Applied(tree, moves[..k])
        == (Applied(tree, moves[..k - 1]) - {moves[k - 1].0})[moves[k - 1].1 := tree[moves[k - 1].0]]
  {
    assert moves[..k][..k - 1] == moves[..k - 1];
  }

  ghost predicate Left(moves: Plan, k: nat, at: Location)
    requires k <= |moves|
  {
    exists i :: 0 <= i < k && moves[i].0 == at
  }

  ghost predicate Arrived(moves: Plan, k: nat, at: Location)
    requires k <= |moves|
  {
    exists i :: 0 <= i < k && moves[i].1 == at
  }

  lemma OneMoreLeft(moves: Plan, k: nat)
    requires 0 < k <= |moves|
    ensures forall at :: Left(moves, k, at) <==> Left(moves, k - 1, at) || moves[k - 1].0 == at
    ensures forall at :: Arrived(moves, k, at) <==> Arrived(moves, k - 1, at) || moves[k - 1].1 == at
  {
  }

  /** The tree after the first `k` moves: moved entries at their destinations, all others in place. */
  lemma {:induction false} AppliedMeaning(r: Rename, tree: Tree, moves: Plan, k: nat)
    requires GoodPlan(r, tree, moves) && k <= |moves|
    ensures forall at :: at in Applied(tree, moves[..k]) <==>
        (at in tree && !Left(moves, k, at)) || Arrived(moves, k, at)
    ensures forall at :: at in tree && !Left(moves, k, at) ==> Applied(tree, moves[..k])[at] == tree[at]
    ensures forall i :: 0 <= i < k ==>
              moves[i].1 in Applied(tree, moves[..k]) && Applied(tree, moves[..k])[moves[i].1] == tree[moves[i].0]
  {
    hide Destination, Moves;
    PlanFacts(r, tree, moves);
    if k > 0 {
      hide Applied, GoodPlan, Left, Arrived;
      AppliedMeaning(r, tree, moves, k - 1);
      AppliedOneMore(tree, moves, k);
      OneMoreLeft(moves, k);
      LeftAndArrived(moves, tree, k - 1);
    }
  }

  lemma LeftAndArrived(moves: Plan, tree: Tree, k: nat)
    requires k < |moves|
    requires forall i :: 0 <= i < |moves| ==> moves[i].0 in tree && moves[i].1 !in tree
    requires forall i, j :: 0 <= i < j < |moves| ==> moves[i].0 != moves[j].0 && moves[i].1 != moves[j].1
    ensures !Left(moves, k, moves[k].0) && !Arrived(moves, k, moves[k].1)
    ensures forall at :: Arrived(moves, k, at) ==> at !in tree
    ensures forall i :: 0 <= i < k ==> Arrived(moves, k, moves[i].1)
  {
  }

  /** No move lands on anything: its target is free when its turn comes and its source still there. */
  lemma MovesNeverLandOnAFile(r: Rename, tree: Tree, moves: Plan, k: nat)
    requires GoodPlan(r, tree, moves) && k < |moves|
    ensures moves[k].1 !in Applied(tree, moves[..k])
    ensures moves[k].0 in Applied(tree, moves[..k]) && Applied(tree, moves[..k])[moves[k].0] == tree[moves[k].0]
  {
    hide Destination, Moves, Applied;
    AppliedMeaning(r, tree, moves, k);
    PlanFacts(r, tree, moves);
    LeftAndArrived(moves, tree, k);
  }

  /** The directory afterwards is the directory before under an injective renaming: nothing lost, nothing merged. */
  lemma RenamingIsInjective(r: Rename, tree: Tree, moves: Plan)
    requires GoodPlan(r, tree, moves)
    ensures forall a, b :: a in tree && b in tree && NewPlace(r, tree, a) == NewPlace(r, tree, b) ==> a == b
    ensures forall a :: a in tree ==>
              NewPlace(r, tree, a) in Applied(tree, moves) && Applied(tree, moves)[NewPlace(r, tree, a)] == tree[a]
    ensures forall b :: b in Applied(tree, moves) ==> exists a :: a in tree && NewPlace(r, tree, a) == b
  {
    hide Destination;
    AppliedMeaning(r, tree, moves, |moves|);
    assert moves[..|moves|] == moves;
    forall a | a in tree
      ensures NewPlace(r, tree, a) in Applied(tree, moves) && Applied(tree, moves)[NewPlace(r, tree, a)] == tree[a]
      ensures Moves(r, tree, a) ==> NewPlace(r, tree, a) !in tree
    {
      if Moves(r, tree, a) {
        var i :| 0 <= i < |moves| && moves[i].0 == a;
      }
    }
    forall a, b | a in tree && b in tree && NewPlace(r, tree, a) == NewPlace(r, tree, b) ensures a == b {
      if Moves(r, tree, a) && Moves(r, tree, b) {
        var i :| 0 <= i < |moves| && moves[i].0 == a;
        var j :| 0 <= j < |moves| && moves[j].0 == b;
        assert moves[i].1 == moves[j].1;
      }
    }
    forall b | b in Applied(tree, moves) ensures exists a :: a in tree && NewPlace(r, tree, a) == b {
      if i :| 0 <= i < |moves| && moves[i].1 == b {
        assert NewPlace(r, tree, moves[i].0) == b;
      } else {
        assert b in tree && NewPlace(r, tree, b) == b;
      }
    }
  }

  // --------------------------------------------------------------- path fields

  /** A path field: somewhere in the directories the rename looks at, or anywhere else. */
  datatype Path = At(at: Location) | Elsewhere(text: string)

  function RewrittenPath(r: Rename, path: Path, sequencedField: bool): Path {
    if path.Elsewhere? then path
    else At(Location(path.at.place, NewName(r, path.at.name, sequencedField && AllowsSequence(r, path.at.place))))
  }

  ghost predicate PointsTo(tree: Tree, path: Path, node: Node) {
    path.At? && path.at in tree && tree[path.at] == node
  }

  /** A single-path field that names a numbered file of a collected sequence. */
  predicate NamesNumberedFile(r: Rename, at: Location) {
    && AllowsSequence(r, at.place)
    && r.tables.nfc(Stem(at.name)) != r.tables.nfc(r.oldName)
    && IsNumbered(r.tables, Stem(at.name), r.oldName)
    && Destination(r, at) != at
  }

  /** Every entry of `reference_images` that pointed to a file points to the same content afterwards. */
  lemma ListedImagesFollow(r: Rename, tree: Tree, moves: Plan, at: Location)
    requires GoodPlan(r, tree, moves) && at in tree && tree[at].File?
    ensures PointsTo(Applied(tree, moves), RewrittenPath(r, At(at), true), tree[at])
  {
    RenamingIsInjective(r, tree, moves);
    assert RewrittenPath(r, At(at), true) == At(NewPlace(r, tree, at));
  }

  /**
    A single-path field that pointed to a file points to the same content afterwards exactly when it does not
    name a numbered file of a collected sequence: those files move and the field does not.
  */
  lemma SinglePathsFollowUnlessNumbered(r: Rename, tree: Tree, moves: Plan, at: Location)
    requires GoodPlan(r, tree, moves) && at in tree && tree[at].File?
    ensures PointsTo(Applied(tree, moves), RewrittenPath(r, At(at), false), tree[at]) <==> !NamesNumberedFile(r, at)
  {
    hide Destination, NewName, Applied, NamesNumberedFile, Moves;
    RenamingIsInjective(r, tree, moves);
    SinglePathTarget(r, tree, at);
    if NamesNumberedFile(r, at) {
      AppliedMeaning(r, tree, moves, |moves|);
      assert moves[..|moves|] == moves;
      PlanFacts(r, tree, moves);
      var i :| 0 <= i < |moves| && moves[i].0 == at;
      assert Left(moves, |moves|, at) && !Arrived(moves, |moves|, at);
    }
  }

  lemma SinglePathTarget(r: Rename, tree: Tree, at: Location)
    requires at in tree && tree[at].File?
    ensures NamesNumberedFile(r, at) ==> Moves(r, tree, at) && RewrittenPath(r, At(at), false) == At(at)
    ensures !NamesNumberedFile(r, at) ==> RewrittenPath(r, At(at), false) == At(NewPlace(r, tree, at))
  {
    StemAndSuffix(at.name);
  }

  /**
    For instance: renaming A to B moves `refs/A_1` to `refs/B_1`, and a single-path field naming it is left
    dangling.
  */
  lemma NumberedFieldDangles() returns (r: Rename, tree: Tree, moves: Plan, at: Location)
    ensures Lawful(r.tables) && GoodPlan(r, tree, moves) && at in tree && tree[at].File?
    ensures NamesNumberedFile(r, at) && RewrittenPath(r, At(at), false) == At(at) && at !in Applied(tree, moves)
  {
    r := Rename(Tables(s => s, d => d == "1"), "A", "B", true);
    at := Location(Refs, "A_1");
    var to := Location(Refs, "B_1");
    tree := map[at := File("x")];
    moves := [(at, to)];
    assert LastDot("A_1") == -1 by {
      assert "A_1"[..2] == "A_" && "A_"[..1] == "A" && "A"[..0] == "";
    }
    assert Stem("A_1") == "A_1" && Suffix("A_1") == "";
    assert "A_1"[..2] == "A" + "_" && "A_1"[2..] == "1";
    assert IsNumbered(r.tables, "A_1", "A");
    assert "B" + "_" + "1" + "" == "B_1";
    assert Destination(r, at) == to && to != at;
    assert moves[0] == (at, to) && Moves(r, tree, moves[0].0);
    SinglePathsFollowUnlessNumbered(r, tree, moves, at);
  }

  /** Paths that lead elsewhere, and folders, are left alone. */
  lemma OthersAreLeftAlone(r: Rename, tree: Tree, moves: Plan, at: Location, text: string, sequencedField: bool)
    requires GoodPlan(r, tree, moves) && at in tree && !tree[at].File?
    ensures PointsTo(Applied(tree, moves), At(at), tree[at])
    ensures RewrittenPath(r, Elsewhere(text), sequencedField) == Elsewhere(text)
  {
    RenamingIsInjective(r, tree, moves);
    assert NewPlace(r, tree, at) == at;
  }

  // ---------------------------------------------------------------- imperative

  /** An asset's entry, its path fields rewritten in place. */
  class Entry {
    var sheet: Option<Path>
    var referenceImage: Option<Path>
    var referenceAudio: Option<Path>
    var referenceImages: seq<Path>

    constructor (sheet: Option<Path>, referenceImage: Option<Path>, referenceAudio: Option<Path>,
        referenceImages: seq<Path>)
      ensures this.sheet == sheet && this.referenceImage == referenceImage
      ensures this.referenceAudio == referenceAudio && this.referenceImages == referenceImages
    {
      this.sheet, this.referenceImage := sheet, referenceImage;
      this.referenceAudio, this.referenceImages := referenceAudio, referenceImages;
    }

    static function RewrittenField(r: Rename, field: Option<Path>): Option<Path> {
      if field.Some? then Some(RewrittenPath(r, field.value, false)) else None
    }

    /** Rewrites every path field and counts those that changed. */
    method RewritePaths(r: Rename) returns (count: nat)
      modifies this
      ensures sheet == RewrittenField(r, old(sheet))
      ensures referenceImage == RewrittenField(r, old(referenceImage))
      ensures referenceAudio == RewrittenField(r, old(referenceAudio))
      ensures |referenceImages| == |old(referenceImages)|
      ensures forall i :: 0 <= i < |referenceImages| ==>
          referenceImages[i] == RewrittenPath(r, old(referenceImages)[i], true)
      ensures count == 0 <==> sheet == old(sheet) && referenceImage == old(referenceImage)
                              && referenceAudio == old(referenceAudio) && referenceImages == old(referenceImages)
    {
      hide RewrittenPath;
      count := 0;
      var renamed := RewrittenField(r, sheet);
      if renamed != sheet {
        sheet := renamed;
        count := count + 1;
      }
      renamed := RewrittenField(r, referenceImage);
      if renamed != referenceImage {
        referenceImage := renamed;
        count := count + 1;
      }
      renamed := RewrittenField(r, referenceAudio);
      if renamed != referenceAudio {
        referenceAudio := renamed;
        count := count + 1;
      }
      ghost var before := count;
      for i := 0 to |referenceImages|
        invariant |referenceImages| == |old(referenceImages)| && count >= before
        invariant forall k :: 0 <= k < i ==> referenceImages[k] == RewrittenPath(r, old(referenceImages)[k], true)
        invariant forall k :: i <= k < |referenceImages| ==> referenceImages[k] == old(referenceImages)[k]
        invariant count == before <==> forall k :: 0 <= k < i ==> referenceImages[k] == old(referenceImages)[k]
        invariant sheet == RewrittenField(r, old(sheet)) && referenceImage == RewrittenField(r, old(referenceImage))
        invariant referenceAudio == RewrittenField(r, old(referenceAudio))
      {
        var path := RewrittenPath(r, referenceImages[i], true);
        if path != referenceImages[i] {
          referenceImages := referenceImages[i := path];
          count := count + 1;
        }
      }
    }
  }

  /** The asset type's directories on disk. */
  class AssetDirectory {
    var tree: Tree

    constructor (tree: Tree)
      ensures this.tree == tree
    {
      this.tree := tree;
    }

    /** Plans, then moves one file after the other; a collision is found before anything moves. */
    method RenameFiles(r: Rename) returns (plan: Result<Plan, Location>)
      modifies this
      ensures plan.Ok? <==> forall at :: !Collides(r, old(tree), at)
      ensures plan.Err? ==> tree == old(tree)
      ensures plan.Ok? ==> GoodPlan(r, old(tree), plan.value) && tree == Applied(old(tree), plan.value)
    {
      hide Collides, Moves, Destination, Applied, GoodPlan;
      plan := PlanRenames(r, tree);
      if plan.Err? {
        return;
      }
      var moves := plan.value;
      PlanFacts(r, tree, moves);
      AppliedNothing(tree);
      for i := 0 to |moves|
        invariant tree == Applied(old(tree), moves[..i])
      {
        MovesNeverLandOnAFile(r, old(tree), moves, i);
        AppliedOneMore(old(tree), moves, i + 1);
        var (from, to) := moves[i];
        tree := (tree - {from})[to := tree[from]];
      }
      assert moves[..|moves|] == moves;
    }
  }
}
