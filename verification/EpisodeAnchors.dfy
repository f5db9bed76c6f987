/**
  How the planner turns each episode's end anchor into an offset of the planning window:
  an exact search first, and only when that finds nothing a search that folds punctuation
  width and whitespace.
*/
module EpisodeAnchors {
  import opened Prelude
  import opened SourceText

  // ---------------------------------------------------------------- folding

  /** One character folded for matching: punctuation to half width, whitespace to a space. */
  function FoldChar(c: char): char {
    match c
    case '\U{3002}' => '.'
    case '\U{FF0E}' => '.'
    case '\U{FF0C}' => ','
    case '\U{FF01}' => '!'
    case '\U{FF1F}' => '?'
    case '\U{FF1A}' => ':'
    case '\U{FF1B}' => ';'
    case '\U{FF08}' => '('
    case '\U{FF09}' => ')'
    case '\U{FF5E}' => '~'
    case '\U{301C}' => '~'
    case '\U{201C}' => '"'
    case '\U{201D}' => '"'
    case '\U{2018}' => '\''
    case '\U{2019}' => '\''
    case '\U{FF02}' => '"'
    case '\U{FF07}' => '\''
    case _ => if IsSpace(c) then ' ' else c
  }

  function Fold(text: string): (r: string)
    ensures |r| == |text|
  {
    seq(|text|, i requires 0 <= i < |text| => FoldChar(text[i]))
  }

  method FoldForMatch(text: string) returns (out: string)
    ensures out == Fold(text)
  {
    out := "";
    for i := 0 to |text|
      invariant out == Fold(text)[..i]
    {
      out := out + [FoldChar(text[i])];
    }
  }

  /** Folding keeps offsets, is idempotent and commutes with slicing and joining. */
  lemma FoldLaws(text: string, lo: nat, hi: nat, more: string)
    requires lo <= hi <= |text|
    ensures Fold(Fold(text)) == Fold(text)
    ensures Fold(text[lo..hi]) == Fold(text)[lo..hi]
    ensures Fold(text + more) == Fold(text) + Fold(more)
    ensures Blank(text) <==> Fold(text) == seq(|text|, i => ' ')
  {
    var spaces := seq(|text|, i => ' ');
    assert forall i | 0 <= i < |text| :: FoldChar(text[i]) == ' ' <==> IsSpace(text[i]);
    if Blank(text) {
      assert forall i | 0 <= i < |text| :: Fold(text)[i] == FoldChar(text[i]) == ' ';
      assert Fold(text) == spaces;
    } else {
      var k :| 0 <= k < |text| && !IsSpace(text[k]);
      assert Fold(text)[k] != spaces[k];
    }
  }

  // -------------------------------------------------------------- searching

  predicate OccursAt(haystack: string, needle: string, i: int) {
    0 <= i <= |haystack| - |needle| && haystack[i..i + |needle|] == needle
  }

  /** Every start of `needle` at or after `from`, overlapping ones included, in order. */
  function Occurrences(haystack: string, needle: string, from: nat): seq<nat>
    decreases |haystack| - from
  {
    if from + |needle| > |haystack| || from >= |haystack| then []
    else (if OccursAt(haystack, needle, from) then [from] else []) + Occurrences(haystack, needle, from + 1)
  }

  lemma {:induction false} OccurrencesAreTheStarts(haystack: string, needle: string, from: nat)
    requires needle != ""
    ensures var s := Occurrences(haystack, needle, from);
            && (forall i: int :: i in s <==> from <= i && OccursAt(haystack, needle, i))
            && (forall i, j :: 0 <= i < j < |s| ==> s[i] < s[j])
    decreases |haystack| - from
  {
    if from + |needle| <= |haystack| {
      OccurrencesAreTheStarts(haystack, needle, from + 1);
      var s, rest := Occurrences(haystack, needle, from), Occurrences(haystack, needle, from + 1);
      if OccursAt(haystack, needle, from) {
        assert s == [from] + rest;
        forall j | 0 < j < |s| ensures from < s[j] {
          assert s[j] == rest[j - 1] && rest[j - 1] in rest;
        }
      } else {
        assert s == rest;
      }
    }
  }

  /** `haystack.find(needle, from)` */
  method Find(haystack: string, needle: string, from: nat) returns (found: int)
    requires needle != ""
    ensures found == -1 ==> Occurrences(haystack, needle, from) == []
    ensures found != -1 ==>
      found >= from && OccursAt(haystack, needle, found)
          && Occurrences(haystack, needle, from) == [found] + Occurrences(haystack, needle, found + 1)
  {
    var i := from;
    while i + |needle| <= |haystack|
      invariant from <= i
      invariant Occurrences(haystack, needle, from) == Occurrences(haystack, needle, i)
    {
      if haystack[i..i + |needle|] == needle {
        return i;
      }
      i := i + 1;
    }
    found := -1;
  }

  method FindAllOverlapping(haystack: string, needle: string) returns (starts: seq<nat>)
    ensures starts == Starts(haystack, needle)
  {
    starts := [];
    if needle == "" {
      return;
    }
    var found := Find(haystack, needle, 0);
    while found != -1
      invariant found == -1 ==> starts == Occurrences(haystack, needle, 0)
      invariant found != -1 ==> 0 <= found && found + |needle| <= |haystack|
      invariant found != -1 ==>
        Occurrences(haystack, needle, 0) == starts + [found] + Occurrences(haystack, needle, found + 1)
      decreases if found == -1 then 0 else |haystack| + 1 - found
    {
      starts := starts + [found];
      found := Find(haystack, needle, found + 1);
    }
  }

  function Starts(haystack: string, needle: string): seq<nat> {
    if needle == "" then [] else Occurrences(haystack, needle, 0)
  }

  /** The needle occurs at `s` and nowhere else. */
  ghost predicate OnlyAt(haystack: string, needle: string, s: nat) {
    && needle != ""
    && OccursAt(haystack, needle, s)
    && forall j :: OccursAt(haystack, needle, j) ==> j == s
  }

  ghost predicate Nowhere(haystack: string, needle: string) {
    needle == "" || forall j :: !OccursAt(haystack, needle, j)
  }

  lemma StartsMeaning(haystack: string, needle: string)
    ensures Starts(haystack, needle) == [] <==> Nowhere(haystack, needle)
    ensures forall s: nat :: Starts(haystack, needle) == [s] <==> OnlyAt(haystack, needle, s)
  {
    var starts := Starts(haystack, needle);
    if needle != "" {
      OccurrencesAreTheStarts(haystack, needle, 0);
      if starts != [] {
        assert OccursAt(haystack, needle, starts[0]);
      }
      assert |starts| > 1 ==> starts[0] < starts[1];
      forall s: nat ensures starts == [s] <==> OnlyAt(haystack, needle, s) {
        if OnlyAt(haystack, needle, s) {
          assert s in starts;
          forall i | 0 <= i < |starts| ensures starts[i] == s {
            assert starts[i] in starts;
          }
        }
        if starts == [s] {
          assert s in starts;
        }
      }
    }
  }

  // --------------------------------------------------------------- locating

  datatype Location =
    | Unique(end: nat, folded: bool)
    | Absent
    | Ambiguous(count: nat, folded: bool)

  /** Where one anchor ends in the window; the folded tier is tried only when the exact tier finds nothing. */
  function Locate(nfc: string -> string, window: string, anchor: string): Location {
    var exact := Starts(window, anchor);
    if |exact| == 1 then Unique(exact[0] + |anchor|, false)
    else if exact != [] then Ambiguous(|exact|, false)
    else
      var normalized := NormalizeSourceText(nfc, anchor);
      var folded := Starts(Fold(window), Fold(normalized));
      if |folded| == 1 then Unique(folded[0] + |normalized|, true)
      else if folded != [] then Ambiguous(|folded|, true)
      else Absent
  }

  function Locations(nfc: string -> string, window: string, anchors: seq<string>): seq<Location> {
    seq(|anchors|, i requires 0 <= i < |anchors| => Locate(nfc, window, anchors[i]))
  }

  /** `end` closes the one occurrence of the anchor, at the tier the search settles on. */
  ghost predicate EndsUniquelyAt(nfc: string -> string, window: string, anchor: string, end: nat) {
    var normalized := NormalizeSourceText(nfc, anchor);
    || (end >= |anchor| && OnlyAt(window, anchor, end - |anchor|))
    || (&& Nowhere(window, anchor)
        && end >= |normalized| && OnlyAt(Fold(window), Fold(normalized), end - |normalized|))
  }

  lemma LocateMeaning(nfc: string -> string, window: string, anchor: string, end: nat)
    ensures (Locate(nfc, window, anchor).Unique? && Locate(nfc, window, anchor).end == end)
       <==> EndsUniquelyAt(nfc, window, anchor, end)
  {
    var normalized := NormalizeSourceText(nfc, anchor);
    StartsMeaning(window, anchor);
    StartsMeaning(Fold(window), Fold(normalized));
    var exact, folded := Starts(window, anchor), Starts(Fold(window), Fold(normalized));
    assert |exact| == 1 ==> exact == [exact[0]];
    assert |folded| == 1 ==> folded == [folded[0]];
  }

  /** A located end lies inside the window and closes a slice equal, or fold-equal, to the anchor. */
  lemma LocatedSliceIsTheAnchor(nfc: string -> string, window: string, anchor: string)
    requires Locate(nfc, window, anchor).Unique?
    ensures var at := Locate(nfc, window, anchor);
            var normalized := NormalizeSourceText(nfc, anchor);
            && 0 < at.end <= |window|
            && (!at.folded ==> |anchor| <= at.end && window[at.end - |anchor|..at.end] == anchor)
            && (at.folded ==>
                  && |normalized| <= at.end
                  && Fold(window[at.end - |normalized|..at.end]) == Fold(normalized))
  {
    var at := Locate(nfc, window, anchor);
    var normalized := NormalizeSourceText(nfc, anchor);
    StartsMeaning(window, anchor);
    StartsMeaning(Fold(window), Fold(normalized));
    if at.folded {
      var starts := Starts(Fold(window), Fold(normalized));
      assert starts == [starts[0]];
      FoldLaws(window, at.end - |normalized|, at.end, "");
    } else {
      var starts := Starts(window, anchor);
      assert starts == [starts[0]];
    }
  }

  // -------------------------------------------------------------- boundaries

  datatype Reason =
    | MissingAnchor(index: nat)
    | AmbiguousAnchor(index: nat, count: nat, folded: bool)
    | NotAfterPrevious(index: nat)

  datatype Resolution = Accepted(ends: seq<nat>) | Rejected(reasons: seq<Reason>)

  function EndBefore(at: seq<Location>, k: nat): nat
    requires k <= |at|
  {
    if k > 0 && at[k - 1].Unique? then at[k - 1].end else 0
  }

  /** The first `k` anchors are located and their ends strictly increase from zero. */
  predicate Advances(at: seq<Location>, k: nat)
    requires k <= |at|
  {
    k == 0 || (Advances(at, k - 1) && at[k - 1].Unique? && EndBefore(at, k - 1) < at[k - 1].end)
  }

  lemma {:induction false} AdvancesMeaning(at: seq<Location>, k: nat)
    requires k <= |at|
    ensures Advances(at, k) <==>
      && (forall i :: 0 <= i < k ==> at[i].Unique? && 0 < at[i].end)
      && (forall i, j :: 0 <= i < j < k ==> at[i].end < at[j].end)
  {
    if k > 0 {
      AdvancesMeaning(at, k - 1);
      if Advances(at, k) {
        forall i | 0 <= i < k - 1 ensures at[i].end <= at[k - 2].end {}
      }
    }
  }

  /** What is said about draft `i`: nothing when it resolves, and order only while all before it resolved. */
  function Complaint(at: seq<Location>, i: nat): seq<Reason>
    requires i < |at|
  {
    match at[i]
    case Absent => [MissingAnchor(i)]
    case Ambiguous(count, folded) => [AmbiguousAnchor(i, count, folded)]
    case Unique(end, _) => if Advances(at, i) && end <= EndBefore(at, i) then [NotAfterPrevious(i)] else []
  }

  function Complaints(at: seq<Location>, k: nat): seq<Reason>
    requires k <= |at|
  {
    if k == 0 then [] else Complaints(at, k - 1) + Complaint(at, k - 1)
  }

  lemma {:induction false} NoComplaintMeansAdvancing(at: seq<Location>, k: nat)
    requires k <= |at|
    ensures Complaints(at, k) == [] <==> Advances(at, k)
  {
    if k > 0 {
      NoComplaintMeansAdvancing(at, k - 1);
      var earlier, last := Complaints(at, k - 1), Complaint(at, k - 1);
      assert Complaints(at, k) == earlier + last;
      assert earlier + last == [] <==> earlier == [] && last == [];
    }
  }

  /** The ends of the first `k` anchors. */
  function Ends(at: seq<Location>, k: nat): (ends: seq<nat>)
    requires k <= |at|
    ensures |ends| == k && forall i :: 0 <= i < k ==> ends[i] == EndBefore(at, i + 1)
  {
    if k == 0 then [] else Ends(at, k - 1) + [EndBefore(at, k)]
  }

  /** The last end moved to the end of the window when only whitespace is left behind it. */
  function Snapped(window: string, ends: seq<nat>, snapWhitespaceTail: bool): seq<nat> {
    if snapWhitespaceTail && ends != [] && ends[|ends| - 1] < |window| && Blank(window[ends[|ends| - 1]..])
    then ends[|ends| - 1 := |window|]
    else ends
  }

  function Verdict(window: string, at: seq<Location>, snapWhitespaceTail: bool): Resolution {
    var reasons := Complaints(at, |at|);
    if reasons != [] then Rejected(reasons)
    else Accepted(Snapped(window, Ends(at, |at|), snapWhitespaceTail))
  }

  function Boundaries(
      nfc: string -> string, window: string, anchors: seq<string>, snapWhitespaceTail: bool): Resolution
  {
    Verdict(window, Locations(nfc, window, anchors), snapWhitespaceTail)
  }

  /** The two search tiers for one anchor; the folded window is built once and handed on. */
  method SearchAnchor(nfc: string -> string, window: string, anchor: string, cache: Option<string>)
    returns (found: Location, foldedWindow: Option<string>)
    requires cache.Some? ==> cache.value == Fold(window)
    ensures foldedWindow.Some? ==> foldedWindow.value == Fold(window)
    ensures found == Locate(nfc, window, anchor)
  {
    var matchLen := |anchor|;
    var matchedByFold := false;
    foldedWindow := cache;
    var starts := FindAllOverlapping(window, anchor);
    if starts == [] {
      if foldedWindow.None? {
        var folded := FoldForMatch(window);
        foldedWindow := Some(folded);
      }
      var normalized := NormalizeSourceText(nfc, anchor);
      var foldedAnchor := FoldForMatch(normalized);
      starts := FindAllOverlapping(foldedWindow.value, foldedAnchor);
      if starts != [] {
        matchedByFold := true;
        matchLen := |normalized|;
      }
    }
    if starts == [] {
      found := Absent;
    } else if |starts| > 1 {
      found := Ambiguous(|starts|, matchedByFold);
    } else {
      found := Unique(starts[0] + matchLen, matchedByFold);
    }
  }

  method ResolveBoundaries(nfc: string -> string, window: string, anchors: seq<string>, snapWhitespaceTail: bool)
    returns (r: Resolution)
    requires anchors != []
    ensures r == Boundaries(nfc, window, anchors, snapWhitespaceTail)
  {
    r := ResolveLocated(nfc, window, anchors, snapWhitespaceTail, Locations(nfc, window, anchors));
  }

  lemma NothingResolvedYet(at: seq<Location>)
    ensures Complaints(at, 0) == [] && Advances(at, 0) && Ends(at, 0) == [] && EndBefore(at, 0) == 0
  {
  }

  /** What one more anchor adds to the complaints, the order and the ends. */
  lemma OneMoreAnchor(at: seq<Location>, i: nat)
    requires i < |at|
    ensures Complaints(at, i + 1) == Complaints(at, i) + Complaint(at, i)
    ensures Complaint(at, i) ==
              match at[i]
              case Absent => [MissingAnchor(i)]
              case Ambiguous(count, folded) => [AmbiguousAnchor(i, count, folded)]
              case Unique(end, _) => if Advances(at, i) && end <= EndBefore(at, i) then [NotAfterPrevious(i)] else []
    ensures Advances(at, i + 1) <==> Advances(at, i) && at[i].Unique? && EndBefore(at, i) < at[i].end
    ensures at[i].Unique? ==> EndBefore(at, i + 1) == at[i].end
    ensures Ends(at, i + 1) == Ends(at, i) + [EndBefore(at, i + 1)]
  {
  }

  method ResolveLocated(nfc: string -> string, window: string, anchors: seq<string>, snapWhitespaceTail: bool,
                        ghost at: seq<Location>)
    returns (r: Resolution)
    requires anchors != [] && |at| == |anchors|
    requires forall i :: 0 <= i < |at| ==> at[i] == Locate(nfc, window, anchors[i])
    ensures r == Verdict(window, at, snapWhitespaceTail)
  {
    var reasons: seq<Reason> := [];
    var ends: seq<nat> := [];
    var pos := 0;
    var orderingValid := true;
    var foldedWindow: Option<string> := None;
    hide Complaints, Complaint, Advances, Ends, EndBefore, Snapped, Locate, Fold;
    NothingResolvedYet(at);
    for i := 0 to |anchors|
      invariant reasons == Complaints(at, i)
      invariant orderingValid == Advances(at, i)
      invariant orderingValid ==> pos == EndBefore(at, i)
      invariant orderingValid ==> ends == Ends(at, i)
      invariant foldedWindow.Some? ==> foldedWindow.value == Fold(window)
    {
      OneMoreAnchor(at, i);
      var found;
      found, foldedWindow := SearchAnchor(nfc, window, anchors[i], foldedWindow);
      match found {
        case Absent =>
          reasons := reasons + [MissingAnchor(i)];
          orderingValid := false;
        case Ambiguous(count, folded) =>
          reasons := reasons + [AmbiguousAnchor(i, count, folded)];
          orderingValid := false;
        case Unique(end, _) =>
          if orderingValid && end <= pos {
            reasons := reasons + [NotAfterPrevious(i)];
            orderingValid := false;
          } else {
            ends := ends + [end];
            pos := end;
          }
      }
    }
    NoComplaintMeansAdvancing(at, |at|);
    if reasons != [] {
      return Rejected(reasons);
    }
    r := Accepted(Snapped(window, ends, snapWhitespaceTail));
  }

  ghost predicate StrictlyIncreasingFrom(low: int, ends: seq<nat>) {
    && (forall i :: 0 <= i < |ends| ==> low < ends[i])
    && (forall i, j :: 0 <= i < j < |ends| ==> ends[i] < ends[j])
  }

  /** Every anchor ends uniquely at its own offset and the offsets strictly increase from zero. */
  ghost predicate LocatedInOrder(nfc: string -> string, window: string, anchors: seq<string>, ends: seq<nat>) {
    && |ends| == |anchors|
    && StrictlyIncreasingFrom(0, ends)
    && forall i :: 0 <= i < |anchors| ==> EndsUniquelyAt(nfc, window, anchors[i], ends[i])
  }

  lemma LocatedInOrderIsAccepted(
      nfc: string -> string, window: string, anchors: seq<string>, snapWhitespaceTail: bool, ends: seq<nat>)
    requires LocatedInOrder(nfc, window, anchors, ends)
    ensures Boundaries(nfc, window, anchors, snapWhitespaceTail) == Accepted(Snapped(window, ends, snapWhitespaceTail))
  {
    var at := Locations(nfc, window, anchors);
    forall i | 0 <= i < |at| ensures at[i].Unique? && at[i].end == ends[i] {
      LocateMeaning(nfc, window, anchors[i], ends[i]);
    }
    AdvancesMeaning(at, |at|);
    NoComplaintMeansAdvancing(at, |at|);
    assert Ends(at, |at|) == ends;
  }

  lemma AcceptedIsLocatedInOrder(
      nfc: string -> string, window: string, anchors: seq<string>, snapWhitespaceTail: bool) returns (ends: seq<nat>)
    requires Boundaries(nfc, window, anchors, snapWhitespaceTail).Accepted?
    ensures LocatedInOrder(nfc, window, anchors, ends)
  {
    var at := Locations(nfc, window, anchors);
    NoComplaintMeansAdvancing(at, |at|);
    AdvancesMeaning(at, |at|);
    ends := Ends(at, |at|);
    forall i | 0 <= i < |anchors| ensures EndsUniquelyAt(nfc, window, anchors[i], ends[i]) {
      assert at[i] == Locate(nfc, window, anchors[i]);
      LocateMeaning(nfc, window, anchors[i], ends[i]);
    }
  }

  /**
    Drafts are accepted exactly when every anchor has one occurrence at the tier the search settles on
    and the ends strictly increase; the answer is then those ends with the blank tail absorbed.
  */
  lemma AcceptedExactlyWhenLocatedInOrder(
      nfc: string -> string, window: string, anchors: seq<string>, snapWhitespaceTail: bool)
    ensures var r := Boundaries(nfc, window, anchors, snapWhitespaceTail);
            && (r.Accepted? <==> exists ends :: LocatedInOrder(nfc, window, anchors, ends))
            && forall ends :: LocatedInOrder(nfc, window, anchors, ends) ==>
                                r == Accepted(Snapped(window, ends, snapWhitespaceTail))
  {
    if Boundaries(nfc, window, anchors, snapWhitespaceTail).Accepted? {
      var ends := AcceptedIsLocatedInOrder(nfc, window, anchors, snapWhitespaceTail);
    }
    forall ends | LocatedInOrder(nfc, window, anchors, ends)
      ensures Boundaries(nfc, window, anchors, snapWhitespaceTail)
          == Accepted(Snapped(window, ends, snapWhitespaceTail))
    {
      LocatedInOrderIsAccepted(nfc, window, anchors, snapWhitespaceTail, ends);
    }
  }

  /** Accepted ends lie in (0, |window|] and strictly increase, so the slices they cut are non-empty and adjacent. */
  lemma AcceptedEndsCutTheWindow(
      nfc: string -> string, window: string, anchors: seq<string>, snapWhitespaceTail: bool)
    requires Boundaries(nfc, window, anchors, snapWhitespaceTail).Accepted?
    ensures var ends := Boundaries(nfc, window, anchors, snapWhitespaceTail).ends;
            && |ends| == |anchors|
            && StrictlyIncreasingFrom(0, ends)
            && (forall i :: 0 <= i < |ends| ==> 0 < ends[i] <= |window|)
            && (snapWhitespaceTail && ends != [] && Blank(window[ends[|ends| - 1]..]) ==> ends[|ends| - 1] == |window|)
  {
    var at := Locations(nfc, window, anchors);
    NoComplaintMeansAdvancing(at, |at|);
    AdvancesMeaning(at, |at|);
    var raw := Ends(at, |at|);
    var ends := Snapped(window, raw, snapWhitespaceTail);
    forall i | 0 <= i < |at| ensures 0 < raw[i] <= |window| {
      assert at[i] == Locate(nfc, window, anchors[i]);
      LocatedSliceIsTheAnchor(nfc, window, anchors[i]);
    }
    if |ends| > 0 {
      var last := |ends| - 1;
      assert forall i :: 0 <= i < last ==> ends[i] == raw[i];
      assert raw[last] <= ends[last] <= |window|;
    }
  }
}
