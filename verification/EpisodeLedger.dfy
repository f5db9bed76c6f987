/**
  The episode ledger: what its readers make of raw entries, where an episode's source range may
  lie, and the one declarative rule that both the planner and the reset validator are held to.
*/
module EpisodeLedger {
  import opened Decimals
  import opened Prelude
  import opened SourceText

  // ------------------------------------------------------------- raw ledger

  /** A candidate source file: its project-relative path and its normalised text. */
  datatype Doc = Doc(rel: string, text: string)

  /** A field as the tolerant readers classify it; booleans and everything else are `Other`. */
  datatype Value = Int(i: int) | Text(s: string) | Other

  datatype RawRange = NoRange | Fields(file: Value, start: Value, end: Value)

  datatype Status = Planned | Consumed | Stale | OtherStatus

  datatype Entry = Null | Scalar | Entry(episode: Value, range: RawRange, status: Status)

  datatype Episodes = NotAList | Listed(entries: seq<Entry>)

  datatype Position = Position(rel: string, offset: int)

  datatype Coords = Coords(rel: string, start: int, end: int)

  /** The digest of a text; the constructor is injective, as SHA-256 is taken to be. */
  datatype Fingerprint = Sha256(text: string)

  /** `prints` maps each recorded file to its digest, `None` where the recorded value is not a string. */
  datatype Project = Project(
    episodes: Episodes, cursor: Option<Position>, prints: Option<map<string, Option<Fingerprint>>>)

  /** A project together with its derived episode files, one per episode number. */
  datatype State = State(project: Project, derived: map<int, string>)

  function ParseEpisodeNum(v: Value): Option<int> {
    match v
    case Int(i) => Some(i)
    case Text(s) => if IsDigits(s) then Some(DecimalValue(s)) else None
    case Other => None
  }

  /** The number of a ledger entry, when it is an object with a readable number. */
  function NumOf(e: Entry): Option<int> {
    if e.Entry? then ParseEpisodeNum(e.episode) else None
  }

  function ParseSourceRange(e: Entry): Option<Coords> {
    if e.Entry? && e.range.Fields? && e.range.file.Text? && e.range.start.Int? && e.range.end.Int?
    then Some(Coords(e.range.file.s, e.range.start.i, e.range.end.i))
    else None
  }

  /** The numbers that have an entry without usable coordinates. */
  function EpisodesWithoutSourceRange(entries: seq<Entry>): set<int> {
    set i | 0 <= i < |entries| && NumOf(entries[i]).Some?
        && ParseSourceRange(entries[i]).None? :: NumOf(entries[i]).value
  }

  // ---------------------------------------------------------------- sources

  ghost predicate DistinctRels(docs: seq<Doc>) {
    forall i, j :: 0 <= i < j < |docs| ==> docs[i].rel != docs[j].rel
  }

  /** `rels.index(rel)`, or `None` where it raises. */
  function IndexOf(docs: seq<Doc>, rel: string): (r: Option<nat>)
    ensures r.Some? ==> r.value < |docs| && docs[r.value].rel == rel
    ensures r.None? ==> forall i :: 0 <= i < |docs| ==> docs[i].rel != rel
  {
    if docs == [] then None
    else if docs[0].rel == rel then Some(0)
    else
      var rest := IndexOf(docs[1..], rel);
      assert forall i :: 0 < i < |docs| ==> docs[i] == docs[1..][i - 1];
      if rest.Some? then Some(rest.value + 1) else None
  }

  lemma IndexOfDoc(docs: seq<Doc>, i: nat)
    requires DistinctRels(docs) && i < |docs|
    ensures IndexOf(docs, docs[i].rel) == Some(i)
  {
    var at := IndexOf(docs, docs[i].rel);
    assert docs[at.value].rel == docs[i].rel;
  }

  function Fingerprints(docs: seq<Doc>): map<string, Fingerprint> {
    map i | 0 <= i < |docs| && IndexOf(docs, docs[i].rel) == Some(i) :: docs[i].rel := Sha256(docs[i].text)
  }

  /** Recorded files whose current digest differs or that have disappeared; unrecorded files are not compared. */
  function MismatchedFingerprints(recorded: Option<map<string, Option<Fingerprint>>>, docs: seq<Doc>): set<string> {
    match recorded
    case None => {}
    case Some(m) =>
      var current := Fingerprints(docs);
      set rel | rel in m && m[rel].Some? && (rel !in current || current[rel] != m[rel].value)
  }

  function AllRecorded(docs: seq<Doc>): map<string, Option<Fingerprint>> {
    var current := Fingerprints(docs);
    map rel | rel in current :: Some(current[rel])
  }

  lemma FreshRecordMatches(docs: seq<Doc>)
    ensures MismatchedFingerprints(Some(AllRecorded(docs)), docs) == {}
  {
  }

  /** With distinct paths, an unchanged digest for a recorded file means an unchanged text. */
  lemma MatchingFingerprintMeansSameText(docs: seq<Doc>, later: seq<Doc>, rel: string)
    requires DistinctRels(docs) && DistinctRels(later)
    requires MismatchedFingerprints(Some(AllRecorded(docs)), later) == {}
    requires IndexOf(docs, rel).Some?
    ensures IndexOf(later, rel).Some?
    ensures later[IndexOf(later, rel).value].text == docs[IndexOf(docs, rel).value].text
  {
    var i := IndexOf(docs, rel).value;
    IndexOfDoc(docs, i);
    assert rel in Fingerprints(docs);
    var recorded := AllRecorded(docs);
    assert rel in recorded;
    assert rel !in MismatchedFingerprints(Some(recorded), later);
    assert rel in Fingerprints(later) && Fingerprints(later)[rel] == Fingerprints(docs)[rel];
    var j :| 0 <= j < |later| && docs[i].rel == later[j].rel && Fingerprints(later)[rel] == Sha256(later[j].text);
    IndexOfDoc(later, j);
    var k :| 0 <= k < |docs| && docs[k].rel == rel && Fingerprints(docs)[rel] == Sha256(docs[k].text);
    IndexOfDoc(docs, k);
  }

  // ------------------------------------------------------- the ledger's rule

  predicate InBounds(docs: seq<Doc>, c: Coords) {
    var i := IndexOf(docs, c.rel);
    i.Some? && 0 <= c.start < c.end <= |docs[i.value].text|
  }

  /** Every document strictly between two indices has only whitespace. */
  predicate AllBlank(docs: seq<Doc>, lo: nat, hi: nat)
    requires hi <= |docs|
  {
    forall i :: lo <= i < hi ==> Blank(docs[i].text)
  }

  /** The first episode starts at 0 of a file with only blank files before it. */
  predicate StartsTheSources(docs: seq<Doc>, c: Coords)
    requires InBounds(docs, c)
  {
    c.start == 0 && AllBlank(docs, 0, IndexOf(docs, c.rel).value)
  }

  /** The next episode starts at the previous end, or at 0 of a later file when all that is skipped is blank. */
  predicate Follows(docs: seq<Doc>, a: Coords, b: Coords)
    requires InBounds(docs, a) && InBounds(docs, b)
  {
    var i, j := IndexOf(docs, a.rel).value, IndexOf(docs, b.rel).value;
    if a.rel == b.rel then b.start == a.end
    else b.start == 0 && i < j && Blank(docs[i].text[a.end..]) && AllBlank(docs, i + 1, j)
  }

  /** The episodes cut the sources without gap or overlap, as far as they go. */
  predicate Chain(docs: seq<Doc>, cs: seq<Coords>)
    decreases |cs|
  {
    cs == [] ||
    (var n := |cs| - 1;
     && Chain(docs, cs[..n])
     && InBounds(docs, cs[n])
     && (if n == 0 then StartsTheSources(docs, cs[0])
         else InBounds(docs, cs[n - 1]) && Follows(docs, cs[n - 1], cs[n])))
  }

  lemma {:induction false} ChainPrefix(docs: seq<Doc>, cs: seq<Coords>, k: nat)
    requires Chain(docs, cs) && k <= |cs|
    ensures Chain(docs, cs[..k])
    decreases |cs|
  {
    if k < |cs| {
      ChainPrefix(docs, cs[..|cs| - 1], k);
      assert cs[..|cs| - 1][..k] == cs[..k];
    } else {
      assert cs[..k] == cs;
    }
  }

  lemma {:induction false} ChainInBounds(docs: seq<Doc>, cs: seq<Coords>)
    requires Chain(docs, cs)
    ensures forall k :: 0 <= k < |cs| ==> InBounds(docs, cs[k])
    decreases |cs|
  {
    if cs != [] {
      ChainInBounds(docs, cs[..|cs| - 1]);
      assert forall k :: 0 <= k < |cs| - 1 ==> cs[k] == cs[..|cs| - 1][k];
    }
  }

  lemma ChainSnoc(docs: seq<Doc>, cs: seq<Coords>, c: Coords)
    requires Chain(docs, cs) && InBounds(docs, c)
    requires cs == [] ==> StartsTheSources(docs, c)
    requires cs != [] ==> InBounds(docs, cs[|cs| - 1]) && Follows(docs, cs[|cs| - 1], c)
    ensures Chain(docs, cs + [c])
  {
    assert (cs + [c])[..|cs|] == cs;
  }

  function Slice(docs: seq<Doc>, c: Coords): string
    requires InBounds(docs, c)
  {
    docs[IndexOf(docs, c.rel).value].text[c.start..c.end]
  }

  // --------------------------------------------------- conservation of text

  /** The ink of the first `k` documents. */
  function InkOfDocs(docs: seq<Doc>, k: nat): string
    requires k <= |docs|
  {
    if k == 0 then "" else InkOfDocs(docs, k - 1) + Ink(docs[k - 1].text)
  }

  /** The ink of everything before offset `at` of document `i`. */
  function InkUpTo(docs: seq<Doc>, i: nat, at: nat): string
    requires i < |docs| && at <= |docs[i].text|
  {
    InkOfDocs(docs, i) + Ink(docs[i].text[..at])
  }

  lemma {:induction false} BlankDocsAddNoInk(docs: seq<Doc>, lo: nat, hi: nat)
    requires lo <= hi <= |docs| && AllBlank(docs, lo, hi)
    ensures InkOfDocs(docs, hi) == InkOfDocs(docs, lo)
    decreases hi
  {
    if lo < hi {
      BlankDocsAddNoInk(docs, lo, hi - 1);
      BlankHasNoInk(docs[hi - 1].text);
    }
  }

  lemma FinishedDocAddsItsInk(docs: seq<Doc>, i: nat, at: nat)
    requires i < |docs| && at <= |docs[i].text| && Blank(docs[i].text[at..])
    ensures InkOfDocs(docs, i + 1) == InkUpTo(docs, i, at)
  {
    InkCut(docs[i].text, at);
    BlankHasNoInk(docs[i].text[at..]);
  }

  /** The texts of a chain, read in order. */
  function Reading(docs: seq<Doc>, cs: seq<Coords>): seq<string>
    requires Chain(docs, cs)
  {
    ChainInBounds(docs, cs);
    seq(|cs|, k requires 0 <= k < |cs| => Slice(docs, cs[k]))
  }

  /** Once whitespace is removed, a chain reads exactly the sources up to its last end: nothing lost, nothing twice. */
  lemma {:induction false} ChainReadsTheSources(docs: seq<Doc>, cs: seq<Coords>)
    requires DistinctRels(docs) && Chain(docs, cs) && cs != []
    ensures InBounds(docs, cs[|cs| - 1])
    ensures var last := cs[|cs| - 1];
            Ink(Flatten(Reading(docs, cs))) == InkUpTo(docs, IndexOf(docs, last.rel).value, last.end)
    decreases |cs|
  {
    hide Ink, Flatten, Reading, InkUpTo, Slice, AllBlank, Blank;
    var n := |cs| - 1;
    var last := cs[n];
    ChainInBounds(docs, cs);
    ReadingSnoc(docs, cs);
    FlattenSnoc(Reading(docs, cs[..n]), Slice(docs, last));
    InkConcat(Flatten(Reading(docs, cs[..n])), Slice(docs, last));
    SliceAddsItsInk(docs, last);
    if n == 0 {
      StartSkipsNoInk(docs, last);
    } else {
      ChainReadsTheSources(docs, cs[..n]);
      LinkSkipsNoInk(docs, cs[n - 1], last);
    }
  }

  lemma ReadingSnoc(docs: seq<Doc>, cs: seq<Coords>)
    requires Chain(docs, cs) && cs != []
    ensures var n := |cs| - 1;
            && Chain(docs, cs[..n]) && InBounds(docs, cs[n])
            && Reading(docs, cs) == Reading(docs, cs[..n]) + [Slice(docs, cs[n])]
            && (n == 0 ==> Flatten(Reading(docs, cs[..n])) == "")
  {
    ChainInBounds(docs, cs);
  }

  /** Nothing is read before the first episode but blank files. */
  lemma StartSkipsNoInk(docs: seq<Doc>, c: Coords)
    requires InBounds(docs, c) && StartsTheSources(docs, c)
    ensures Ink("") + InkUpTo(docs, IndexOf(docs, c.rel).value, c.start) == ""
  {
    BlankDocsAddNoInk(docs, 0, IndexOf(docs, c.rel).value);
  }

  lemma SliceAddsItsInk(docs: seq<Doc>, c: Coords)
    requires InBounds(docs, c)
    ensures var i := IndexOf(docs, c.rel).value;
            InkUpTo(docs, i, c.end) == InkUpTo(docs, i, c.start) + Ink(Slice(docs, c))
  {
    var text := docs[IndexOf(docs, c.rel).value].text;
    InkCut(text[..c.end], c.start);
    assert text[..c.end][..c.start] == text[..c.start] && text[..c.end][c.start..] == text[c.start..c.end];
  }

  lemma LinkSkipsNoInk(docs: seq<Doc>, a: Coords, b: Coords)
    requires InBounds(docs, a) && InBounds(docs, b) && Follows(docs, a, b)
    ensures InkUpTo(docs, IndexOf(docs, a.rel).value, a.end) == InkUpTo(docs, IndexOf(docs, b.rel).value, b.start)
  {
    if a.rel != b.rel {
      var i, j := IndexOf(docs, a.rel).value, IndexOf(docs, b.rel).value;
      FinishedDocAddsItsInk(docs, i, a.end);
      BlankDocsAddNoInk(docs, i + 1, j);
    }
  }
}
