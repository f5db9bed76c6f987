/**
  Folding the results of one queue batch into the per-ID contract: when it raises, and that what it builds is accepted.
*/
module BatchOutcomes {
  import opened Prelude
  import opened BatchEnqueue
  import opened GenerationResults

  /** What is recorded of a report; `unitIdOf` maps the queue's ID to the contract's. */
  function CallFor(report: Report, success: bool, unitIdOf: string -> string): Call {
    Record(Item(unitIdOf(report.id), if success then State.Succeeded else State.Failed, !success))
  }

  function CallsFor(reports: seq<Report>, success: bool, unitIdOf: string -> string): seq<Call> {
    seq(|reports|, i requires 0 <= i < |reports| => CallFor(reports[i], success, unitIdOf))
  }

  /** The book after the calls up to the first that raises, and whether none did. */
  function Folded(book: Book, calls: seq<Call>): (Book, bool)
    decreases |calls|
  {
    if calls == [] then (book, true)
    else
      var noted := Noted(book, calls[0]);
      if noted.None? then (book, false) else Folded(noted.value, calls[1..])
  }

  /**
    Folding raises exactly on an ID that repeats or was recorded before, and always leaves a book that can be
    built.
  */
  lemma {:induction false} FoldedMeaning(book: Book, calls: seq<Call>)
    requires Consistent(book) && forall i :: 0 <= i < |calls| && calls[i].Record? ==> GoodItem(calls[i].item)
    ensures Consistent(Folded(book, calls).0)
    ensures Folded(book, calls).1 <==>
              DistinctCalls(calls) && forall i :: 0 <= i < |calls| ==> IdOf(calls[i]) !in book.seen
    decreases |calls|
  {
    hide Consistent, GoodItem;
    if calls != [] {
      var rest := calls[1..];
      assert forall i :: 0 <= i < |rest| ==> rest[i] == calls[i + 1];
      var noted := Noted(book, calls[0]);
      if noted.Some? {
        NotedIsConsistent(book, calls[0]);
        FoldedMeaning(noted.value, rest);
        assert noted.value.seen == book.seen + {IdOf(calls[0])};
        if Folded(book, calls).1 {
          forall i, j | 0 <= i < j < |calls| ensures IdOf(calls[i]) != IdOf(calls[j]) {
            assert calls[j] == rest[j - 1] && IdOf(rest[j - 1]) !in noted.value.seen;
            assert i > 0 ==> calls[i] == rest[i - 1];
          }
          forall i | 0 <= i < |calls| ensures IdOf(calls[i]) !in book.seen {
            assert i > 0 ==> calls[i] == rest[i - 1];
          }
        }
      }
    }
  }

  function BatchCalls(successes: seq<Report>, failures: seq<Report>, unitIdOf: string -> string): seq<Call> {
    CallsFor(successes, true, unitIdOf) + CallsFor(failures, false, unitIdOf)
  }

  /** `record_batch_outcomes`: false where the builder raises, what was recorded before that staying. */
  method RecordBatchOutcomes(
      builder: GenerationResultBuilder, successes: seq<Report>, failures: seq<Report>, unitIdOf: string -> string)
    returns (ok: bool)
    modifies builder
    ensures (builder.Contents(), ok) == Folded(old(builder.Contents()), BatchCalls(successes, failures, unitIdOf))
  {
    ghost var calls := BatchCalls(successes, failures, unitIdOf);
    assert calls[0..] == calls;
    for i := 0 to |successes|
      invariant Folded(old(builder.Contents()), calls) == Folded(builder.Contents(), calls[i..])
    {
      assert calls[i..][0] == CallFor(successes[i], true, unitIdOf) && calls[i..][1..] == calls[i + 1..];
      ok := builder.Succeed(unitIdOf(successes[i].id));
      if !ok {
        return;
      }
    }
    var n := |successes|;
    for i := 0 to |failures|
      invariant Folded(old(builder.Contents()), calls) == Folded(builder.Contents(), calls[n + i..])
    {
      assert calls[n + i..][0] == CallFor(failures[i], false, unitIdOf) && calls[n + i..][1..] == calls[n + i + 1..];
      ok := builder.Fail(unitIdOf(failures[i].id));
      if !ok {
        return;
      }
    }
    ok := true;
  }

  // ------------------------------------------------------- a whole batch, folded

  function IdSeq(reports: seq<Report>): seq<string> {
    seq(|reports|, i requires 0 <= i < |reports| => reports[i].id)
  }

  function SpecIds(specs: seq<Spec>): seq<string> {
    seq(|specs|, i requires 0 <= i < |specs| => ReportedId(specs[i]))
  }

  /** No two places hold IDs that are mapped to the same unit. */
  predicate DistinctUnits(ids: seq<string>, unitIdOf: string -> string) {
    forall i, j :: 0 <= i < j < |ids| ==> unitIdOf(ids[i]) != unitIdOf(ids[j])
  }

  lemma TakenOneMore(ids: seq<string>, k: nat)
    requires 0 < k <= |ids|
    ensures multiset(ids[..k]) == multiset(ids[..k - 1]) + multiset{ids[k - 1]}
  {
    assert ids[..k] == ids[..k - 1] + [ids[k - 1]];
  }

  lemma {:induction false} RequestedAreSpecIds(specs: seq<Spec>, k: nat)
    requires k <= |specs|
    ensures RequestedIds(specs, k) == multiset(SpecIds(specs)[..k])
  {
    if k > 0 {
      RequestedAreSpecIds(specs, k - 1);
      TakenOneMore(SpecIds(specs), k);
    }
  }

  /** Where the one sequence holds at least what the other does, distinct units carry over. */
  lemma DistinctUnitsCarryOver(ids: seq<string>, others: seq<string>, unitIdOf: string -> string)
    requires DistinctUnits(others, unitIdOf) && multiset(ids) <= multiset(others)
    ensures DistinctUnits(ids, unitIdOf)
  {
    forall i, j | 0 <= i < j < |ids| ensures unitIdOf(ids[i]) != unitIdOf(ids[j]) {
      assert ids[i] in multiset(ids) && ids[j] in multiset(ids);
      assert ids[i] in multiset(others) && ids[j] in multiset(others);
      var a :| 0 <= a < |others| && others[a] == ids[i];
      var b :| 0 <= b < |others| && others[b] == ids[j];
      if a == b {
        TwoOccurrences(ids, i, j);
        assert NoDuplicates(others);
        OneOccurrence(others, ids[i]);
      }
    }
  }

  lemma BatchCallIds(successes: seq<Report>, failures: seq<Report>, unitIdOf: string -> string)
    ensures DistinctCalls(BatchCalls(successes, failures, unitIdOf))
       <==> DistinctUnits(IdSeq(successes + failures), unitIdOf)
  {
    var calls, ids := BatchCalls(successes, failures, unitIdOf), IdSeq(successes + failures);
    assert |calls| == |ids| && forall i :: 0 <= i < |ids| ==> IdOf(calls[i]) == unitIdOf(ids[i]);
  }

  /**
    Folding a whole enqueue-and-wait into a fresh builder raises, whatever the queue answered and however the tasks
    ended, exactly when two of the requested specs are reported under the same unit. Without a repetition it builds a
    result that the validator accepts and that requests exactly the units of the specs.
  */
  lemma FoldingRaisesExactlyOnRepeatedUnits(
      specs: seq<Spec>, answers: seq<Option<string>>, stopOnFailure: bool, succeeded: string -> bool,
      unitIdOf: string -> string)
    requires |answers| == |specs|
    ensures var successes := AllSuccesses(specs, answers, stopOnFailure, succeeded);
            var failures := AllFailures(specs, answers, stopOnFailure, succeeded);
            var (book, ok) := Folded(EMPTY_BOOK, BatchCalls(successes, failures, unitIdOf));
            && (ok <==> DistinctUnits(SpecIds(specs), unitIdOf))
            && Accepted(Built(book.items, book.skipped))
            && (ok ==> multiset(IdSeq(successes + failures)) == multiset(SpecIds(specs)))
  {
    hide AllSuccesses, AllFailures, AllResults, Accepted, GoodItem, Folded, Built;
    var successes := AllSuccesses(specs, answers, stopOnFailure, succeeded);
    var failures := AllFailures(specs, answers, stopOnFailure, succeeded);
    var calls, ids, wanted := BatchCalls(successes, failures, unitIdOf), IdSeq(successes + failures), SpecIds(specs);
    assert wanted[..|specs|] == wanted;
    RequestedAreSpecIds(specs, |specs|);
    SuccessesAndFailuresAreAllResults(specs, answers, stopOnFailure, succeeded);
    IdsConcat(successes, failures);
    assert multiset(ids) == AllResults(specs, answers, stopOnFailure) by { IdsOfSeq(successes + failures); }
    NobodyGoesUnreported(specs, answers, stopOnFailure);
    if DistinctUnits(wanted, unitIdOf) {
      DistinctSpecs(specs, unitIdOf);
      WaitingReportsOnceExactlyForDistinctIds(specs, stopOnFailure);
      DistinctUnitsCarryOver(ids, wanted, unitIdOf);
    }
    if DistinctUnits(ids, unitIdOf) {
      DistinctUnitsCarryOver(wanted, ids, unitIdOf);
    }
    BatchCallIds(successes, failures, unitIdOf);
    CallsAreGood(successes, failures, unitIdOf);
    NothingNoted();
    FoldedMeaning(EMPTY_BOOK, calls);
    BuiltIsAccepted(Folded(EMPTY_BOOK, calls).0);
  }

  lemma {:induction false} IdsOfSeq(reports: seq<Report>)
    ensures Ids(reports) == multiset(IdSeq(reports))
  {
    if reports != [] {
      var n := |reports| - 1;
      IdsOfSeq(reports[..n]);
      assert IdSeq(reports) == IdSeq(reports[..n]) + [reports[n].id];
    }
  }

  lemma DistinctSpecs(specs: seq<Spec>, unitIdOf: string -> string)
    requires DistinctUnits(SpecIds(specs), unitIdOf)
    ensures DistinctIds(specs)
  {
    forall i, j | 0 <= i < j < |specs| ensures ReportedId(specs[i]) != ReportedId(specs[j]) {
      assert unitIdOf(SpecIds(specs)[i]) != unitIdOf(SpecIds(specs)[j]);
    }
  }

  lemma CallsAreGood(successes: seq<Report>, failures: seq<Report>, unitIdOf: string -> string)
    ensures var calls := BatchCalls(successes, failures, unitIdOf);
            forall i :: 0 <= i < |calls| ==> calls[i].Record? && GoodItem(calls[i].item)
  {
  }

  lemma NothingNoted()
    ensures Consistent(EMPTY_BOOK) && EMPTY_BOOK.seen == {}
  {
  }
}
