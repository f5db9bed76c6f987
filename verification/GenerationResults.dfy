/**
  The per-ID outcome of a generation request: a builder that refuses to record an ID twice, and the
  validator that every built result passes.
*/
module GenerationResults {
  import opened Prelude

  datatype State = Succeeded | Failed | Blocked

  /** `problem` says whether the item carries one. */
  datatype Item = Item(unitId: string, state: State, problem: bool)

  /** What the item's own validator demands. */
  predicate GoodItem(item: Item) {
    item.state.Succeeded? <==> !item.problem
  }

  datatype BatchResult = BatchResult(
    requested: seq<string>, succeeded: seq<string>, failed: seq<string>, blocked: seq<string>,
    skipped: seq<string>, items: seq<Item>)

  predicate NoDuplicates(ids: seq<string>) {
    forall i, j :: 0 <= i < j < |ids| ==> ids[i] != ids[j]
  }

  function UnitIds(items: seq<Item>): seq<string> {
    seq(|items|, i requires 0 <= i < |items| => items[i].unitId)
  }

  function Bucket(r: BatchResult, state: State): seq<string> {
    match state
    case Succeeded => r.succeeded
    case Failed => r.failed
    case Blocked => r.blocked
  }

  /** The result's validator, check by check; lists are compared as sorted lists, that is as multisets. */
  predicate Accepted(r: BatchResult) {
    && NoDuplicates(r.succeeded) && NoDuplicates(r.failed) && NoDuplicates(r.blocked)
    && var union := r.succeeded + r.failed + r.blocked;
    && NoDuplicates(union)
    && multiset(union) == multiset(r.requested) && NoDuplicates(r.requested)
    && multiset(UnitIds(r.items)) == multiset(r.requested)
    && (forall i :: 0 <= i < |r.items| ==> r.items[i].unitId in Bucket(r, r.items[i].state))
    && NoDuplicates(r.skipped)
    && (forall id :: id in r.skipped ==> id !in r.requested)
  }

  /** The unit IDs of the items in one state, in order. */
  function InState(items: seq<Item>, state: State): seq<string> {
    if items == [] then []
    else
      var last := items[|items| - 1];
      InState(items[..|items| - 1], state) + (if last.state == state then [last.unitId] else [])
  }

  function Built(items: seq<Item>, skipped: seq<string>): BatchResult {
    BatchResult(
      UnitIds(items), InState(items, Succeeded), InState(items, Failed), InState(items, Blocked), skipped, items)
  }

  // ------------------------------------------------------------------- builder

  datatype Call = Skip(unitId: string) | Record(item: Item)

  function IdOf(call: Call): string {
    if call.Skip? then call.unitId else call.item.unitId
  }

  datatype Book = Book(items: seq<Item>, skipped: seq<string>, seen: set<string>)

  const EMPTY_BOOK := Book([], [], {})

  /** `None` where the builder raises: an ID already recorded, or an item its own validator refuses. */
  function Noted(book: Book, call: Call): Option<Book> {
    if IdOf(call) in book.seen || (call.Record? && !GoodItem(call.item)) then None
    else
      match call
      case Skip(unitId) => Some(book.(skipped := book.skipped + [unitId], seen := book.seen + {unitId}))
      case Record(item) => Some(book.(items := book.items + [item], seen := book.seen + {item.unitId}))
  }

  function Notes(calls: seq<Call>): Option<Book> {
    if calls == [] then Some(EMPTY_BOOK)
    else
      var before := Notes(calls[..|calls| - 1]);
      if before.None? then None else Noted(before.value, calls[|calls| - 1])
  }

  ghost predicate Consistent(book: Book) {
    && NoDuplicates(UnitIds(book.items)) && NoDuplicates(book.skipped)
    && (forall id :: id in UnitIds(book.items) ==> id in book.seen && id !in book.skipped)
    && (forall id :: id in book.skipped ==> id in book.seen)
    && (forall id :: id in book.seen ==> id in UnitIds(book.items) || id in book.skipped)
    && (forall i :: 0 <= i < |book.items| ==> GoodItem(book.items[i]))
  }

  lemma UnitIdsSnoc(items: seq<Item>, item: Item)
    ensures UnitIds(items + [item]) == UnitIds(items) + [item.unitId]
  {
  }

  lemma NotedIsConsistent(book: Book, call: Call)
    requires Consistent(book) && Noted(book, call).Some?
    ensures Consistent(Noted(book, call).value)
  {
    if call.Record? {
      UnitIdsSnoc(book.items, call.item);
    }
  }

  lemma {:induction false} NotesAreConsistent(calls: seq<Call>)
    requires Notes(calls).Some?
    ensures Consistent(Notes(calls).value)
  {
    if calls != [] {
      NotesAreConsistent(calls[..|calls| - 1]);
      NotedIsConsistent(Notes(calls[..|calls| - 1]).value, calls[|calls| - 1]);
    }
  }

  lemma {:induction false} InStateMeaning(items: seq<Item>, state: State)
    requires NoDuplicates(UnitIds(items))
    ensures NoDuplicates(InState(items, state))
    ensures forall id :: id in InState(items, state) <==>
        exists i :: 0 <= i < |items| && items[i].unitId == id && items[i].state == state
  {
    if items != [] {
      var n := |items| - 1;
      var front := items[..n];
      assert forall i :: 0 <= i < n ==> UnitIds(front)[i] == UnitIds(items)[i];
      InStateMeaning(front, state);
      var earlier := InState(front, state);
      forall id ensures id in InState(items, state) <==>
          exists i :: 0 <= i < |items| && items[i].unitId == id && items[i].state == state {
        assert id in InState(items, state) <==> id in earlier || (items[n].state == state && items[n].unitId == id);
        assert (exists i :: 0 <= i < n && items[i].unitId == id && items[i].state == state) <==> id in earlier by {
          assert forall i :: 0 <= i < n ==> front[i] == items[i];
        }
      }
      assert UnitIds(items)[n] == items[n].unitId;
      assert forall i :: 0 <= i < n ==> front[i].unitId == UnitIds(items)[i] != UnitIds(items)[n];
      assert items[n].unitId !in earlier;
    }
  }

  lemma InStateSnoc(items: seq<Item>, last: Item, state: State)
    ensures multiset(InState(items + [last], state))
            == multiset(InState(items, state)) + (if last.state == state then multiset{last.unitId} else multiset{})
  {
    assert (items + [last])[..|items|] == items;
  }

  lemma {:induction false} StatesPartition(items: seq<Item>)
    ensures multiset(InState(items, Succeeded)) + multiset(InState(items, Failed)) + multiset(InState(items, Blocked))
            == multiset(UnitIds(items))
  {
    if items != [] {
      var front, last := items[..|items| - 1], items[|items| - 1];
      assert items == front + [last];
      StatesPartition(front);
      InStateSnoc(front, last, Succeeded);
      InStateSnoc(front, last, Failed);
      InStateSnoc(front, last, Blocked);
      UnitIdsSnoc(front, last);
      StatesAdd(last);
    }
  }

  lemma StatesAdd(last: Item)
    ensures (if last.state == Succeeded then multiset{last.unitId} else multiset{})
          + (if last.state == Failed then multiset{last.unitId} else multiset{})
          + (if last.state == Blocked then multiset{last.unitId} else multiset{}) == multiset{last.unitId}
  {
  }

  lemma NoDuplicatesAcross(ids: seq<string>, other: seq<string>)
    requires NoDuplicates(other) && multiset(ids) == multiset(other)
    ensures NoDuplicates(ids)
  {
    forall i, j | 0 <= i < j < |ids| ensures ids[i] != ids[j] {
      if ids[i] == ids[j] {
        TwoOccurrences(ids, i, j);
        OneOccurrence(other, ids[i]);
      }
    }
  }

  lemma TwoOccurrences(ids: seq<string>, i: nat, j: nat)
    requires i < j < |ids| && ids[i] == ids[j]
    ensures multiset(ids)[ids[i]] >= 2
  {
    assert ids == ids[..j] + [ids[j]] + ids[j + 1..];
    assert ids[i] in ids[..j];
    assert ids[i] in multiset(ids[..j]);
  }

  lemma {:induction false} OneOccurrence(ids: seq<string>, id: string)
    requires NoDuplicates(ids)
    ensures multiset(ids)[id] <= 1
  {
    if ids != [] {
      var n := |ids| - 1;
      OneOccurrence(ids[..n], id);
      assert ids == ids[..n] + [ids[n]];
      if ids[n] == id {
        assert id !in ids[..n];
        assert id !in multiset(ids[..n]);
      }
    }
  }

  /** Every sequence of calls that does not raise builds a result the validator accepts. */
  lemma EveryBuiltResultIsAccepted(calls: seq<Call>)
    requires Notes(calls).Some?
    ensures var book := Notes(calls).value; Accepted(Built(book.items, book.skipped))
  {
    NotesAreConsistent(calls);
    BuiltIsAccepted(Notes(calls).value);
  }

  lemma BuiltIsAccepted(book: Book)
    requires Consistent(book)
    ensures Accepted(Built(book.items, book.skipped))
  {
    hide InState;
    var items := book.items;
    InStateMeaning(items, Succeeded);
    InStateMeaning(items, Failed);
    InStateMeaning(items, Blocked);
    StatesPartition(items);
    NoDuplicatesAcross(InState(items, Succeeded) + InState(items, Failed) + InState(items, Blocked), UnitIds(items));
  }

  predicate DistinctCalls(calls: seq<Call>) {
    forall i, j :: 0 <= i < j < |calls| ==> IdOf(calls[i]) != IdOf(calls[j])
  }

  lemma NoCalls()
    ensures DistinctCalls([])
  {
  }

  lemma DistinctSnoc(front: seq<Call>, last: Call)
    ensures DistinctCalls(front + [last]) <==>
              DistinctCalls(front) && forall i :: 0 <= i < |front| ==> IdOf(front[i]) != IdOf(last)
  {
    hide IdOf;
    var all := front + [last];
    assert all[|front|] == last && forall i :: 0 <= i < |front| ==> all[i] == front[i];
    if DistinctCalls(all) {
      forall i, j | 0 <= i < j < |front| ensures IdOf(front[i]) != IdOf(front[j]) {
        assert IdOf(all[i]) != IdOf(all[j]);
      }
      forall i | 0 <= i < |front| ensures IdOf(front[i]) != IdOf(last) {
        assert IdOf(all[i]) != IdOf(all[|front|]);
      }
    }
  }

  /** A sequence of calls raises exactly when it repeats an ID or records an ill-formed item. */
  lemma {:induction false} RaisesExactlyOnRepeats(calls: seq<Call>)
    ensures Notes(calls).Some? <==>
      && DistinctCalls(calls)
      && (forall i :: 0 <= i < |calls| && calls[i].Record? ==> GoodItem(calls[i].item))
    ensures Notes(calls).Some? ==> forall id :: id in Notes(calls).value.seen <==>
        exists i :: 0 <= i < |calls| && IdOf(calls[i]) == id
  {
    hide GoodItem, DistinctCalls;
    if calls == [] {
      assert DistinctCalls(calls) by { NoCalls(); }
    } else {
      var n := |calls| - 1;
      var front := calls[..n];
      RaisesExactlyOnRepeats(front);
      DistinctSnoc(front, calls[n]);
      assert front + [calls[n]] == calls;
      assert forall i :: 0 <= i < n ==> front[i] == calls[i];
      var before := Notes(front);
      if before.Some? {
        assert IdOf(calls[n]) in before.value.seen <==> exists i :: 0 <= i < n && IdOf(calls[i]) == IdOf(calls[n]);
      }
    }
  }

  class GenerationResultBuilder {
    var items: seq<Item>
    var skipped: seq<string>
    var seen: set<string>

    ghost function Contents(): Book
      reads this
    {
      Book(items, skipped, seen)
    }

    constructor ()
      ensures Contents() == EMPTY_BOOK
    {
      items, skipped, seen := [], [], {};
    }

    /** False where it raises; nothing is recorded then. */
    method SkipUnit(unitId: string) returns (ok: bool)
      modifies this
      ensures ok <==> Noted(old(Contents()), Skip(unitId)).Some?
      ensures Contents() == if ok then Noted(old(Contents()), Skip(unitId)).value else old(Contents())
    {
      if unitId in seen {
        return false;
      }
      seen := seen + {unitId};
      skipped := skipped + [unitId];
      ok := true;
    }

    method RecordItem(item: Item) returns (ok: bool)
      modifies this
      ensures ok <==> Noted(old(Contents()), Record(item)).Some?
      ensures Contents() == if ok then Noted(old(Contents()), Record(item)).value else old(Contents())
    {
      if !GoodItem(item) || item.unitId in seen {
        return false;
      }
      seen := seen + {item.unitId};
      items := items + [item];
      ok := true;
    }

    method Succeed(unitId: string) returns (ok: bool)
      modifies this
      ensures ok <==> unitId !in old(seen)
      ensures Contents() == if ok then Noted(old(Contents()), Record(Item(unitId, Succeeded, false))).value
          else old(Contents())
    {
      ok := RecordItem(Item(unitId, Succeeded, false));
    }

    method Fail(unitId: string) returns (ok: bool)
      modifies this
      ensures ok <==> unitId !in old(seen)
      ensures Contents() == if ok then Noted(old(Contents()), Record(Item(unitId, Failed, true))).value
          else old(Contents())
    {
      ok := RecordItem(Item(unitId, Failed, true));
    }

    method Block(unitId: string) returns (ok: bool)
      modifies this
      ensures ok <==> unitId !in old(seen)
      ensures Contents() == if ok then Noted(old(Contents()), Record(Item(unitId, Blocked, true))).value
          else old(Contents())
    {
      ok := RecordItem(Item(unitId, Blocked, true));
    }

    /** Sorts the items into their buckets; a consistent book always passes the validator. */
    method Build() returns (r: BatchResult)
      requires Consistent(Contents())
      ensures r == Built(items, skipped) && Accepted(r)
    {
      var succeeded: seq<string>, failed: seq<string>, blocked: seq<string> := [], [], [];
      for i := 0 to |items|
        invariant succeeded == InState(items[..i], Succeeded)
        invariant failed == InState(items[..i], Failed)
        invariant blocked == InState(items[..i], Blocked)
      {
        assert items[..i + 1][..i] == items[..i];
        match items[i].state {
          case Succeeded => succeeded := succeeded + [items[i].unitId];
          case Failed => failed := failed + [items[i].unitId];
          case Blocked => blocked := blocked + [items[i].unitId];
        }
      }
      assert items[..|items|] == items;
      r := BatchResult(UnitIds(items), succeeded, failed, blocked, skipped, items);
      BuiltIsAccepted(Contents());
    }
  }

  // ----------------------------------------------------------------- selection

  datatype Currency = Current | Stale | Missing | Unavailable

  /** A candidate as observed, and whether another leg lets it be reused. */
  datatype Candidate = Candidate(unitId: string, currency: Currency, override: bool)

  datatype Selection = Selection(
    targets: seq<Candidate>, skipped: seq<Candidate>, unavailable: seq<Candidate>, unmatched: seq<string>)

  predicate Reusable(c: Candidate) {
    c.currency.Current? || c.currency.Stale? || c.override
  }

  datatype Verdict = Nameless | Unjudged | Reuse | Generate

  /** What missing-only does with a candidate; the state of an unavailable one is never guessed. */
  function Judge(c: Candidate): Verdict {
    if c.unitId == "" then Nameless
    else if c.currency.Unavailable? then Unjudged
    else if Reusable(c) then Reuse
    else Generate
  }

  /** The candidates with one verdict, in order. */
  function Sifted(candidates: seq<Candidate>, verdict: Verdict): seq<Candidate> {
    if candidates == [] then []
    else
      var last := candidates[|candidates| - 1];
      Sifted(candidates[..|candidates| - 1], verdict) + (if Judge(last) == verdict then [last] else [])
  }

  method SelectMissing(candidates: seq<Candidate>) returns (s: Selection)
    ensures s == Selection(Sifted(candidates, Generate), Sifted(candidates, Reuse), Sifted(candidates, Unjudged), [])
  {
    s := Selection([], [], [], []);
    for i := 0 to |candidates|
      invariant s == Selection(
        Sifted(candidates[..i], Generate), Sifted(candidates[..i], Reuse), Sifted(candidates[..i], Unjudged), [])
    {
      var c := candidates[i];
      assert candidates[..i + 1][..i] == candidates[..i];
      if c.unitId == "" {
        continue;
      }
      if c.currency.Unavailable? {
        s := s.(unavailable := s.unavailable + [c]);
        continue;
      }
      var reusable := c.currency.Current? || c.currency.Stale?;
      if !reusable && c.override {
        reusable := true;
      }
      if reusable {
        s := s.(skipped := s.skipped + [c]);
        continue;
      }
      s := s.(targets := s.targets + [c]);
    }
    assert candidates[..|candidates|] == candidates;
  }

  /**
    Every candidate lands in exactly one place: as often as it is offered, it is generated, reused, reported or
    nameless.
  */
  lemma {:induction false} SiftingLosesNobody(candidates: seq<Candidate>)
    ensures multiset(Sifted(candidates, Generate)) + multiset(Sifted(candidates, Reuse))
          + multiset(Sifted(candidates, Unjudged)) + multiset(Sifted(candidates, Nameless)) == multiset(candidates)
  {
    if candidates != [] {
      var front, last := candidates[..|candidates| - 1], candidates[|candidates| - 1];
      assert candidates == front + [last];
      SiftingLosesNobody(front);
      SiftedSnoc(front, last, Generate);
      SiftedSnoc(front, last, Reuse);
      SiftedSnoc(front, last, Unjudged);
      SiftedSnoc(front, last, Nameless);
    }
  }

  lemma SiftedSnoc(candidates: seq<Candidate>, last: Candidate, verdict: Verdict)
    ensures multiset(Sifted(candidates + [last], verdict))
            == multiset(Sifted(candidates, verdict)) + (if Judge(last) == verdict then multiset{last} else multiset{})
  {
    assert (candidates + [last])[..|candidates|] == candidates;
  }

  /** `dict.fromkeys`: each ID at its first mention. */
  function FirstMentions(ids: seq<string>): (r: seq<string>)
    ensures NoDuplicates(r) && forall id :: id in r <==> id in ids
  {
    if ids == [] then []
    else
      var earlier, last := FirstMentions(ids[..|ids| - 1]), ids[|ids| - 1];
      assert ids == ids[..|ids| - 1] + [last];
      if last in earlier then earlier else earlier + [last]
  }

  /** The last candidate with an ID wins. */
  function LastWith(candidates: seq<Candidate>, id: string): (r: Option<Candidate>)
    ensures r.Some? ==> r.value in candidates && r.value.unitId == id && id != ""
    ensures r.None? && id != "" ==> forall c :: c in candidates ==> c.unitId != id
  {
    if candidates == [] then None
    else
      var last := candidates[|candidates| - 1];
      assert candidates == candidates[..|candidates| - 1] + [last];
      if last.unitId == id && id != "" then Some(last) else LastWith(candidates[..|candidates| - 1], id)
  }

  function Matched(candidates: seq<Candidate>, wanted: seq<string>): seq<Candidate> {
    if wanted == [] then []
    else
      var found := LastWith(candidates, wanted[|wanted| - 1]);
      Matched(candidates, wanted[..|wanted| - 1]) + (if found.Some? then [found.value] else [])
  }

  function Unmatched(candidates: seq<Candidate>, wanted: seq<string>): seq<string> {
    if wanted == [] then []
    else
      var last := wanted[|wanted| - 1];
      Unmatched(candidates, wanted[..|wanted| - 1]) + (if LastWith(candidates, last).None? then [last] else [])
  }

  /** An explicit request; an explicitly empty one is refused. */
  method SelectExplicit(candidates: seq<Candidate>, requestedIds: seq<string>) returns (s: Option<Selection>)
    ensures s == if requestedIds == [] then None
                 else Some(Selection(Matched(candidates, FirstMentions(requestedIds)), [], [],
                                     Unmatched(candidates, FirstMentions(requestedIds))))
  {
    if requestedIds == [] {
      return None;
    }
    var wanted := FirstMentions(requestedIds);
    var byId: map<string, Candidate> := map[];
    for i := 0 to |candidates|
      invariant forall id :: (if id in byId then Some(byId[id]) else None) == LastWith(candidates[..i], id)
    {
      assert candidates[..i + 1][..i] == candidates[..i];
      if candidates[i].unitId != "" {
        byId := byId[candidates[i].unitId := candidates[i]];
      }
    }
    assert candidates[..|candidates|] == candidates;
    var targets: seq<Candidate>, unmatched: seq<string> := [], [];
    for i := 0 to |wanted|
      invariant targets == Matched(candidates, wanted[..i]) && unmatched == Unmatched(candidates, wanted[..i])
    {
      assert wanted[..i + 1][..i] == wanted[..i];
      if wanted[i] in byId {
        targets := targets + [byId[wanted[i]]];
      } else {
        unmatched := unmatched + [wanted[i]];
      }
    }
    assert wanted[..|wanted|] == wanted;
    s := Some(Selection(targets, [], [], unmatched));
  }

  function CandidateIds(candidates: seq<Candidate>): multiset<string> {
    if candidates == [] then multiset{}
    else CandidateIds(candidates[..|candidates| - 1]) + multiset{candidates[|candidates| - 1].unitId}
  }

  lemma MatchedSnoc(candidates: seq<Candidate>, wanted: seq<string>, last: string)
    ensures CandidateIds(Matched(candidates, wanted + [last]))
            == CandidateIds(Matched(candidates, wanted)) + (if LastWith(candidates, last).Some? then multiset{last}
                else multiset{})
    ensures multiset(Unmatched(candidates, wanted + [last]))
            == multiset(Unmatched(candidates, wanted)) + (if LastWith(candidates, last).Some? then multiset{}
                else multiset{last})
  {
    assert (wanted + [last])[..|wanted|] == wanted;
    var found, earlier := LastWith(candidates, last), Matched(candidates, wanted);
    if found.Some? {
      assert (earlier + [found.value])[..|earlier|] == earlier;
    } else {
      assert earlier + [] == earlier;
    }
  }

  lemma NothingWanted(candidates: seq<Candidate>)
    ensures CandidateIds(Matched(candidates, [])) == multiset{} && Unmatched(candidates, []) == []
  {
  }

  /** Every wanted ID is matched by a candidate of that ID or reported unmatched, each once. */
  lemma {:induction false} EveryWantedIdIsAccountedFor(candidates: seq<Candidate>, wanted: seq<string>)
    ensures CandidateIds(Matched(candidates, wanted)) + multiset(Unmatched(candidates, wanted)) == multiset(wanted)
  {
    hide LastWith, Matched, Unmatched, CandidateIds;
    NothingWanted(candidates);
    if wanted != [] {
      var front, last := wanted[..|wanted| - 1], wanted[|wanted| - 1];
      EveryWantedIdIsAccountedFor(candidates, front);
      assert wanted == front + [last];
      MatchedSnoc(candidates, front, last);
    }
  }
}
