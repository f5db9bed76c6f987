/**
  Moving claims between keys, with its rollback and its compensation, over a store whose operations may
  fail before or after taking effect while other writers come in between.
*/
module ClaimRekey {
  import opened Prelude
  import opened ManifestStore

  /** How one store operation goes: normally, or raising before or after its effect. */
  datatype Fault = NoFault | FailsBefore | FailsAfter

  /** What the environment does around one store operation: other writers first, then the fault. */
  datatype Weather = Weather(others: Option<Claims>, fault: Fault)

  const CALM := Weather(None, NoFault)

  function Seen(claims: Claims, w: Weather): Claims {
    if w.others.Some? then w.others.value else claims
  }

  /** A scoped compare-and-swap under a fault: the claims it leaves and what its caller sees. */
  ghost function FaultySwap(
      identity: string -> string, claims: Claims, expected: Scope, replacements: Scope, fault: Fault): (Claims, Answer)
  {
    var (after, answer) := Memory(identity, claims, SwapScoped(expected, replacements));
    match fault
    case NoFault => (after, answer)
    case FailsBefore => (claims, Raised)
    case FailsAfter => (after, Raised)
  }

  /** A swap writes only when the expectation holds at that moment, only the named keys, and all of them at once. */
  lemma SwapIsGuarded(identity: string -> string, claims: Claims, expected: Scope, replacements: Scope, fault: Fault)
    ensures var (after, answer) := FaultySwap(identity, claims, expected, replacements, fault);
            && (after != claims ==> Matches(claims, expected) && after == Applied(claims, replacements))
            && (answer == Returned(false) ==> after == claims)
            && (answer == Returned(true) ==> Matches(claims, expected) && after == Applied(claims, replacements))
            && (forall key :: key !in replacements ==> Lookup(after, key) == Lookup(claims, key))
  {
    AppliedMatches(claims, replacements);
  }

  datatype Plan = Plan(before: Scope, after: Scope, changed: bool)

  datatype Outcome = Committed | NothingToDo | ConflictAfterPreflight | OriginalErrorReraised | RollbackIncomplete

  // ------------------------------------------------------------ rekey planning

  /** The claim moved to its new formal path, if that path is rewritten; its digest is immutable evidence. */
  function Rewritten(claim: Claim, rewrites: map<string, string>): Claim {
    if claim.path in rewrites then claim.(path := rewrites[claim.path]) else claim
  }

  /** Nothing when the target key is already taken. */
  function PlanRekey(claims: Claims, source: string, target: string, rewrites: map<string, string>): Option<Plan> {
    var held := Lookup(claims, source);
    if source == target then
      if held.None? || Rewritten(held.value, rewrites) == held.value then Some(Plan(map[], map[], false))
      else Some(Plan(map[source := held], map[source := Some(Rewritten(held.value, rewrites))], true))
    else if target in claims then None
    else if held.None? then Some(Plan(map[], map[], false))
    else Some(Plan(map[source := held, target := None],
                   map[source := None, target := Some(Rewritten(held.value, rewrites))], true))
  }

  ghost predicate WellFormed(plan: Plan) {
    && plan.before.Keys == plan.after.Keys
    && (plan.changed ==> exists key :: key in plan.before && plan.before[key] != plan.after[key])
  }

  /** A plan describes the claims it was made from, and committing it moves the digest unharmed to the target. */
  lemma PlanRekeyMeaning(claims: Claims, source: string, target: string, rewrites: map<string, string>)
    requires PlanRekey(claims, source, target, rewrites).Some?
    ensures var plan := PlanRekey(claims, source, target, rewrites).value;
            && WellFormed(plan) && Matches(claims, plan.before)
            && var after := if plan.changed then Applied(claims, plan.after) else claims;
            && (source in claims ==> target in after && after[target] == Rewritten(claims[source], rewrites))
            && (source != target ==> source !in after)
            && (forall key :: key != source && key != target ==> Lookup(after, key) == Lookup(claims, key))
  {
    var plan := PlanRekey(claims, source, target, rewrites).value;
    if plan.changed {
      assert source in plan.before && plan.before[source] != plan.after[source];
      AppliedMatches(claims, plan.after);
    }
  }

  // ------------------------------------------------------------- specification

  /** One key read back, with what happens around the reading. */
  datatype Reading = Reading(key: string, w: Weather)

  function KeysOf(readings: seq<Reading>): set<string> {
    set i | 0 <= i < |readings| :: readings[i].key
  }

  /** What other writers alone make of the claims, one after the other. */
  function AfterOthers(claims: Claims, weathers: seq<Weather>): Claims
    decreases |weathers|
  {
    if weathers == [] then claims else AfterOthers(Seen(claims, weathers[0]), weathers[1..])
  }

  function Weathers(readings: seq<Reading>): seq<Weather> {
    seq(|readings|, i requires 0 <= i < |readings| => readings[i].w)
  }

  /** The claims that the `i`-th reading looks at. */
  function ReadAt(claims: Claims, readings: seq<Reading>, i: nat): Claims
    requires i < |readings|
  {
    AfterOthers(claims, Weathers(readings)[..i + 1])
  }

  datatype Comparison = Same | Different | Unread

  /** Reading key by key until one differs or fails: the claims at the end, and what was found. */
  function Compared(claims: Claims, expected: Scope, readings: seq<Reading>): (Claims, Comparison)
    requires KeysOf(readings) <= expected.Keys
    decreases |readings|
  {
    if readings == [] then (claims, Same)
    else
      var seen, key := Seen(claims, readings[0].w), readings[0].key;
      FirstKey(readings);
      if readings[0].w.fault != NoFault then (seen, Unread)
      else if Lookup(seen, key) != expected[key] then (seen, Different)
      else Compared(seen, expected, readings[1..])
  }

  /** Reading key by key into `known`; nothing when a reading fails. */
  function Observed(claims: Claims, known: Scope, readings: seq<Reading>): (Claims, Option<Scope>)
    decreases |readings|
  {
    if readings == [] then (claims, Some(known))
    else
      var seen, key := Seen(claims, readings[0].w), readings[0].key;
      if readings[0].w.fault != NoFault then (seen, None)
      else Observed(seen, known[key := Lookup(seen, key)], readings[1..])
  }

  /** `ArtifactEntryRekeyPlan.commit`: the claims it leaves and how it ends. */
  ghost function Carried(
      identity: string -> string, claims: Claims, plan: Plan, first: Weather, second: Weather, readings: seq<Reading>):
      (Claims, Outcome)
    requires KeysOf(readings) <= plan.before.Keys
  {
    if !plan.changed then (claims, NothingToDo)
    else
      var (swapped, answer) := FaultySwap(identity, Seen(claims, first), plan.before, plan.after, first.fault);
      if answer.Returned? then (swapped, if answer.changed then Committed else ConflictAfterPreflight)
      else
        var (undone, rollback) := FaultySwap(identity, Seen(swapped, second), plan.after, plan.before, second.fault);
        if rollback.Raised? then (undone, RollbackIncomplete)
        else if rollback.changed then (undone, OriginalErrorReraised)
        else
          var (end, found) := Compared(undone, plan.before, readings);
          (end, if found.Same? then OriginalErrorReraised else RollbackIncomplete)
  }

  /** `ArtifactEntryRekeyReceipt.compensate`: the claims it leaves, and `None` where it raises. */
  ghost function Compensated(
      identity: string -> string, claims: Claims, plan: Plan, w: Weather, readings: seq<Reading>):
      (Claims, Option<bool>)
    requires KeysOf(readings) <= plan.before.Keys
  {
    if !plan.changed then (claims, Some(false))
    else
      var (restored, answer) := FaultySwap(identity, Seen(claims, w), plan.after, plan.before, w.fault);
      if answer == Returned(true) then (restored, Some(true))
      else if answer.Raised? then (restored, None)
      else
        var (end, found) := Compared(restored, plan.before, readings);
        (end, if found.Same? then Some(false) else None)
  }

  datatype Registration =
    | NotNeeded
    | Registered
    | MissingArtifact
    | ReadFailed
    | ChangedDuringRegistration
    | Broken(outcome: Outcome)

  /** What other writers and faults do around one registration, and the order in which its keys are read. */
  datatype Surroundings = Surroundings(
    observing: seq<Reading>, first: Weather, second: Weather, readings: seq<Reading>)

  ghost predicate ReadsAll(around: Surroundings, keys: set<string>) {
    KeysOf(around.observing) == keys && KeysOf(around.readings) == keys
  }

  /** Every claim that is to be set names a formal file that is there. */
  predicate AllPresent(replacements: Scope, present: string -> bool) {
    forall key :: key in replacements && replacements[key].Some? ==> present(replacements[key].value.path)
  }

  /** For batches that only remove claims: no file is looked for. */
  const ANY_FILE: string -> bool := _ => true

  /** Each named key was observed as given. */
  predicate ObservedAs(observed: Scope, scope: Scope)
    requires scope.Keys <= observed.Keys
  {
    forall key :: key in scope ==> observed[key] == scope[key]
  }

  function BatchPlan(observed: Scope, replacements: Scope): Plan {
    Plan(observed, observed + replacements, true)
  }

  function AsRegistration(outcome: Outcome): Registration {
    match outcome
    case Committed => Registered
    case ConflictAfterPreflight => ChangedDuringRegistration
    case _ => Broken(outcome)
  }

  /** What follows once every key was observed. */
  ghost function Deciding(
      identity: string -> string, seen: Claims, observed: Scope, replacements: Scope, guarded: Scope,
      present: string -> bool, around: Surroundings): (Claims, Registration)
    requires observed.Keys == guarded.Keys + replacements.Keys && KeysOf(around.readings) == observed.Keys
  {
    if !AllPresent(replacements, present) then (seen, MissingArtifact)
    else if !ObservedAs(observed, guarded) then (seen, ChangedDuringRegistration)
    else if ObservedAs(observed, replacements) then (seen, NotNeeded)
    else
      var (end, outcome) :=
        Carried(identity, seen, BatchPlan(observed, replacements), around.first, around.second, around.readings);
      (end, AsRegistration(outcome))
  }

  /** `register_artifact_entries_atomically`: the claims it leaves and how it ends. */
  ghost function Registering(
      identity: string -> string, claims: Claims, replacements: Scope, guarded: Scope, present: string -> bool,
      around: Surroundings): (Claims, Registration)
    requires ReadsAll(around, guarded.Keys + replacements.Keys)
  {
    if replacements == map[] then (claims, NotNeeded)
    else
      var (seen, observed) := Observed(claims, map[], around.observing);
      ObservedKeys(claims, map[], around.observing);
      if observed.None? then (seen, ReadFailed)
      else Deciding(identity, seen, observed.value, replacements, guarded, present, around)
  }

  // ---------------------------------------------------------- what it all means

  lemma FirstKey(readings: seq<Reading>)
    requires readings != []
    ensures readings[0].key in KeysOf(readings)
    ensures KeysOf(readings) == {readings[0].key} + KeysOf(readings[1..])
  {
    var rest := readings[1..];
    assert forall i :: 0 <= i < |rest| ==> rest[i] == readings[i + 1];
    forall key | key in KeysOf(readings) ensures key in {readings[0].key} + KeysOf(rest) {
      var i :| 0 <= i < |readings| && readings[i].key == key;
      assert i > 0 ==> rest[i - 1].key == key;
    }
  }

  lemma {:induction false} ObservedKeys(claims: Claims, known: Scope, readings: seq<Reading>)
    ensures var (_, observed) := Observed(claims, known, readings);
            observed.Some? ==> observed.value.Keys == known.Keys + KeysOf(readings)
    decreases |readings|
  {
    if readings != [] {
      FirstKey(readings);
      var seen, key := Seen(claims, readings[0].w), readings[0].key;
      ObservedKeys(seen, known[key := Lookup(seen, key)], readings[1..]);
    }
  }

  lemma ReadAtRest(claims: Claims, readings: seq<Reading>, i: nat)
    requires 0 < i < |readings|
    ensures ReadAt(claims, readings, i) == ReadAt(Seen(claims, readings[0].w), readings[1..], i - 1)
  {
    assert Weathers(readings)[..i + 1][1..] == Weathers(readings[1..])[..i];
  }

  lemma ReadAtFirst(claims: Claims, readings: seq<Reading>)
    requires readings != []
    ensures ReadAt(claims, readings, 0) == Seen(claims, readings[0].w)
  {
    assert Weathers(readings)[..1] == [readings[0].w];
    assert AfterOthers(claims, [readings[0].w]) == AfterOthers(Seen(claims, readings[0].w), []);
  }

  /** Every reading worked and found what was expected of its key at that moment. */
  ghost predicate FoundAll(claims: Claims, expected: Scope, readings: seq<Reading>) {
    forall i :: 0 <= i < |readings| ==>
      && readings[i].w.fault == NoFault && readings[i].key in expected
      && Lookup(ReadAt(claims, readings, i), readings[i].key) == expected[readings[i].key]
  }

  lemma FoundAllRest(claims: Claims, expected: Scope, readings: seq<Reading>)
    requires readings != [] && KeysOf(readings) <= expected.Keys
    ensures var seen := Seen(claims, readings[0].w);
            FoundAll(claims, expected, readings) <==>
              && readings[0].w.fault == NoFault && readings[0].key in expected
              && Lookup(seen, readings[0].key) == expected[readings[0].key]
              && FoundAll(seen, expected, readings[1..])
  {
    hide AfterOthers, ReadAt, Lookup;
    FirstKey(readings);
    ReadAtFirst(claims, readings);
    var rest := readings[1..];
    forall i | 0 < i < |readings|
      ensures ReadAt(claims, readings, i) == ReadAt(Seen(claims, readings[0].w), rest, i - 1)
    {
      ReadAtRest(claims, readings, i);
    }
    assert forall i {:trigger rest[i]} :: 0 <= i < |rest| ==> rest[i] == readings[i + 1];
    if FoundAll(Seen(claims, readings[0].w), expected, rest) {
      forall i | 0 < i < |readings|
        ensures readings[i].w.fault == NoFault && readings[i].key in expected
        ensures Lookup(ReadAt(claims, readings, i), readings[i].key) == expected[readings[i].key]
      {
        assert rest[i - 1] == readings[i];
      }
    }
    if FoundAll(claims, expected, readings) {
      forall i | 0 <= i < |rest|
        ensures rest[i].w.fault == NoFault && rest[i].key in expected
        ensures Lookup(ReadAt(Seen(claims, readings[0].w), rest, i), rest[i].key) == expected[rest[i].key]
      {
        assert rest[i] == readings[i + 1];
      }
    }
  }

  /** Comparing never writes, and says `Same` exactly when each key was as expected when it was read. */
  lemma {:induction false} ComparedMeaning(claims: Claims, expected: Scope, readings: seq<Reading>)
    requires KeysOf(readings) <= expected.Keys
    ensures var (end, found) := Compared(claims, expected, readings);
            && (found.Same? <==> FoundAll(claims, expected, readings))
            && exists n :: 0 <= n <= |readings| && end == AfterOthers(claims, Weathers(readings)[..n])
    decreases |readings|
  {
    var weathers := Weathers(readings);
    if readings == [] {
      assert AfterOthers(claims, weathers[..0]) == claims;
    } else {
      FirstKey(readings);
      FoundAllRest(claims, expected, readings);
      var seen, rest := Seen(claims, readings[0].w), readings[1..];
      var end := Compared(claims, expected, readings).0;
      if readings[0].w.fault == NoFault && Lookup(seen, readings[0].key) == expected[readings[0].key] {
        ComparedMeaning(seen, expected, rest);
        var n :| 0 <= n <= |rest| && end == AfterOthers(seen, Weathers(rest)[..n]);
        assert weathers[..n + 1][1..] == Weathers(rest)[..n];
        assert end == AfterOthers(claims, weathers[..n + 1]);
      } else {
        assert weathers[..1][1..] == [];
        assert end == AfterOthers(claims, weathers[..1]);
      }
    }
  }

  lemma {:induction false} ObservingOnlyReads(claims: Claims, known: Scope, readings: seq<Reading>)
    ensures exists n :: 0 <= n <= |readings|
              && Observed(claims, known, readings).0 == AfterOthers(claims, Weathers(readings)[..n])
    decreases |readings|
  {
    hide Lookup;
    var weathers, end := Weathers(readings), Observed(claims, known, readings).0;
    if readings == [] {
      assert AfterOthers(claims, weathers[..0]) == claims;
    } else {
      var seen, rest := Seen(claims, readings[0].w), readings[1..];
      if readings[0].w.fault == NoFault {
        var more := known[readings[0].key := Lookup(seen, readings[0].key)];
        ObservingOnlyReads(seen, more, rest);
        var n :| 0 <= n <= |rest| && end == AfterOthers(seen, Weathers(rest)[..n]);
        assert weathers[..n + 1][1..] == Weathers(rest)[..n];
        assert end == AfterOthers(claims, weathers[..n + 1]);
      } else {
        assert weathers[..1][1..] == [];
        assert end == AfterOthers(claims, weathers[..1]);
      }
    }
  }

  /** Observing never writes; what it reports of a key is what stood there when that key was read. */
  lemma {:induction false} ObservedMeaning(claims: Claims, known: Scope, readings: seq<Reading>)
    ensures var (end, observed) := Observed(claims, known, readings);
            && (observed.Some? <==> forall i :: 0 <= i < |readings| ==> readings[i].w.fault == NoFault)
            && (exists n :: 0 <= n <= |readings| && end == AfterOthers(claims, Weathers(readings)[..n]))
            && (observed.Some? ==>
                  && observed.value.Keys == known.Keys + KeysOf(readings)
                  && end == AfterOthers(claims, Weathers(readings))
                  && (forall key :: key in known && key !in KeysOf(readings) ==> observed.value[key] == known[key])
                  && forall key :: key in KeysOf(readings) ==>
                       exists i :: 0 <= i < |readings| && readings[i].key == key
                                   && observed.value[key] == Lookup(ReadAt(claims, readings, i), key))
    decreases |readings|
  {
    hide Lookup;
    ObservingOnlyReads(claims, known, readings);
    if readings != [] {
      var seen, key, rest := Seen(claims, readings[0].w), readings[0].key, readings[1..];
      FirstKey(readings);
      ReadAtFirst(claims, readings);
      assert Weathers(readings)[1..] == Weathers(rest);
      assert forall i {:trigger rest[i]} :: 0 <= i < |rest| ==> rest[i] == readings[i + 1];
      if readings[0].w.fault == NoFault {
        var more := known[key := Lookup(seen, key)];
        ObservedMeaning(seen, more, rest);
        var observed := Observed(claims, known, readings).1;
        assert observed == Observed(seen, more, rest).1;
        assert forall i :: 0 < i < |readings| ==> readings[i] == rest[i - 1];
        if observed.Some? {
          forall k | k in KeysOf(readings)
            ensures exists i :: 0 <= i < |readings| && readings[i].key == k
                                && observed.value[k] == Lookup(ReadAt(claims, readings, i), k)
          {
            if k in KeysOf(rest) {
              var i :| 0 <= i < |rest| && rest[i].key == k && observed.value[k] == Lookup(ReadAt(seen, rest, i), k);
              ReadAtRest(claims, readings, i + 1);
              assert readings[i + 1].key == k;
            } else {
              assert observed.value[k] == more[k] && readings[0].key == k;
            }
          }
        }
      }
    }
  }

  // ---------------------------------------------------------------- committing

  /** The swap found its expectation at that moment, could write, and was not kept from it. */
  ghost predicate TakesEffect(
      identity: string -> string, at: Claims, expected: Scope, replacements: Scope, fault: Fault)
  {
    fault != FailsBefore && Matches(at, expected) && UniquePaths(identity, Applied(at, replacements))
  }

  /** For a plan that changes something, in either direction. */
  lemma SwapMeaning(identity: string -> string, at: Claims, expected: Scope, replacements: Scope, fault: Fault)
    requires expected.Keys == replacements.Keys && expected != replacements
    ensures var (after, answer) := FaultySwap(identity, at, expected, replacements, fault);
            && after == (if TakesEffect(identity, at, expected, replacements, fault) then Applied(at, replacements)
                else at)
            && (answer == Returned(true) <==>
                fault == NoFault && TakesEffect(identity, at, expected, replacements, fault))
            && (answer == Returned(false) <==> fault == NoFault && !Matches(at, expected))
            && (Matches(at, expected) ==> Applied(at, replacements) != at)
  {
    var key :| key in expected && expected[key] != replacements[key];
    AppliedMatches(at, replacements);
    if Matches(at, expected) {
      assert Lookup(Applied(at, replacements), key) != Lookup(at, key);
    }
  }

  lemma ChangingPlan(plan: Plan)
    requires WellFormed(plan) && plan.changed
    ensures plan.before != plan.after
  {
  }

  /** The claims right after the swap of a commit. */
  ghost function AfterSwap(
      identity: string -> string, at: Claims, expected: Scope, replacements: Scope, fault: Fault): Claims
  {
    if TakesEffect(identity, at, expected, replacements, fault) then Applied(at, replacements) else at
  }

  /**
    When a commit of a changing plan does what. `at` are the claims its swap meets and `back` those its rollback
    meets; everything it leaves is one of these, one of these with the plan's keys replaced while the opposite
    side of the plan held, or what other writers made of them.
  */
  lemma CommitMeaning(
      identity: string -> string, claims: Claims, plan: Plan, first: Weather, second: Weather, readings: seq<Reading>)
    requires WellFormed(plan) && plan.changed && KeysOf(readings) == plan.before.Keys
    ensures var (end, outcome) := Carried(identity, claims, plan, first, second, readings);
            var at := Seen(claims, first);
            var back := Seen(AfterSwap(identity, at, plan.before, plan.after, first.fault), second);
            var raised := first.fault != NoFault
                || (Matches(at, plan.before) && !UniquePaths(identity, Applied(at, plan.after)));
            var undone := TakesEffect(identity, back, plan.after, plan.before, second.fault);
            && (outcome == Committed <==>
                  first.fault == NoFault && Matches(at, plan.before) && UniquePaths(identity, Applied(at, plan.after)))
            && (outcome == Committed ==> end == Applied(at, plan.after))
            && (outcome == ConflictAfterPreflight <==> first.fault == NoFault && !Matches(at, plan.before))
            && (outcome == ConflictAfterPreflight ==> end == at)
            && (outcome == OriginalErrorReraised <==>
                  && raised && second.fault == NoFault
                  && (undone || (!Matches(back, plan.after) && FoundAll(back, plan.before, readings))))
            && (outcome == RollbackIncomplete <==> raised && outcome != OriginalErrorReraised)
            && (raised && undone ==> end == Applied(back, plan.before))
            && (raised && !undone ==>
                exists n :: 0 <= n <= |readings| && end == AfterOthers(back, Weathers(readings)[..n]))
  {
    hide Matches, Applied, UniquePaths, FoundAll, Compared;
    ChangingPlan(plan);
    var at := Seen(claims, first);
    SwapMeaning(identity, at, plan.before, plan.after, first.fault);
    var swapped := AfterSwap(identity, at, plan.before, plan.after, first.fault);
    var back := Seen(swapped, second);
    SwapMeaning(identity, back, plan.after, plan.before, second.fault);
    ComparedMeaning(back, plan.before, readings);
    assert Weathers(readings)[..0] == [];
    assert AfterOthers(back, Weathers(readings)[..0]) == back;
  }

  /** A key the plan does not change: the swap leaves its claim alone. */
  lemma SwapLeavesAlone(
      identity: string -> string, at: Claims, expected: Scope, replacements: Scope, fault: Fault, key: string)
    requires key in replacements ==> key in expected && expected[key] == replacements[key]
    ensures Lookup(FaultySwap(identity, at, expected, replacements, fault).0, key) == Lookup(at, key)
  {
  }

  lemma {:induction false} OthersAgreeAt(a: Claims, b: Claims, weathers: seq<Weather>, key: string)
    requires Lookup(a, key) == Lookup(b, key)
    ensures Lookup(AfterOthers(a, weathers), key) == Lookup(AfterOthers(b, weathers), key)
    decreases |weathers|
  {
    hide Lookup;
    if weathers != [] {
      OthersAgreeAt(Seen(a, weathers[0]), Seen(b, weathers[0]), weathers[1..], key);
    }
  }

  lemma OthersFirst(claims: Claims, w: Weather, weathers: seq<Weather>)
    ensures AfterOthers(claims, [w] + weathers) == AfterOthers(Seen(claims, w), weathers)
  {
    assert ([w] + weathers)[1..] == weathers;
  }

  /** The rollback and the readings after it, at a key the plan does not change. */
  lemma RollbackFollowsOthers(
      identity: string -> string, at: Claims, swapped: Claims, plan: Plan, second: Weather, readings: seq<Reading>,
      key: string)
    requires KeysOf(readings) <= plan.before.Keys
    requires key in plan.before ==> key in plan.after && plan.before[key] == plan.after[key]
    requires Lookup(swapped, key) == Lookup(at, key)
    ensures var undone := FaultySwap(identity, Seen(swapped, second), plan.after, plan.before, second.fault).0;
            && Lookup(undone, key) == Lookup(AfterOthers(at, [second] + Weathers(readings)[..0]), key)
            && exists n :: 0 <= n <= |readings|
                 && Lookup(Compared(undone, plan.before, readings).0, key)
                    == Lookup(AfterOthers(at, [second] + Weathers(readings)[..n]), key)
  {
    hide FaultySwap, Lookup, Compared;
    var undone := FaultySwap(identity, Seen(swapped, second), plan.after, plan.before, second.fault).0;
    SwapLeavesAlone(identity, Seen(swapped, second), plan.after, plan.before, second.fault, key);
    ComparedMeaning(undone, plan.before, readings);
    forall n | 0 <= n <= |readings|
      ensures Lookup(AfterOthers(at, [second] + Weathers(readings)[..n]), key)
              == Lookup(AfterOthers(undone, Weathers(readings)[..n]), key)
    {
      OthersFirst(at, second, Weathers(readings)[..n]);
      OthersAgreeAt(undone, Seen(at, second), Weathers(readings)[..n], key);
    }
    assert AfterOthers(undone, Weathers(readings)[..0]) == undone;
    var n :| 0 <= n <= |readings|
        && Compared(undone, plan.before, readings).0 == AfterOthers(undone, Weathers(readings)[..n]);
  }

  /** Outside what the plan changes, the claims are at every end just what the other writers made of them. */
  lemma CommitFollowsOthersElsewhere(
      identity: string -> string, claims: Claims, plan: Plan, first: Weather, second: Weather, readings: seq<Reading>,
      key: string)
    requires WellFormed(plan) && KeysOf(readings) <= plan.before.Keys
    requires key in plan.before ==> plan.before[key] == plan.after[key]
    ensures exists passed :: passed <= [first, second] + Weathers(readings)
              && Lookup(Carried(identity, claims, plan, first, second, readings).0, key)
                 == Lookup(AfterOthers(claims, passed), key)
  {
    hide FaultySwap, Lookup, Compared;
    var all := [first, second] + Weathers(readings);
    var end := Carried(identity, claims, plan, first, second, readings).0;
    var at := Seen(claims, first);
    var (swapped, answer) := FaultySwap(identity, at, plan.before, plan.after, first.fault);
    SwapLeavesAlone(identity, at, plan.before, plan.after, first.fault, key);
    if !plan.changed {
      assert [] <= all && AfterOthers(claims, []) == end;
    } else if answer.Returned? {
      OthersFirst(claims, first, []);
      assert [first] + [] <= all;
    } else {
      RollbackFollowsOthers(identity, at, swapped, plan, second, readings, key);
      var undone := FaultySwap(identity, Seen(swapped, second), plan.after, plan.before, second.fault).0;
      var n :| 0 <= n <= |readings|
        && Lookup(end, key) == Lookup(AfterOthers(at, [second] + Weathers(readings)[..n]), key);
      OthersFirst(claims, first, [second] + Weathers(readings)[..n]);
      assert [first] + ([second] + Weathers(readings)[..n]) <= all;
    }
  }

  ghost predicate Quiet(first: Weather, second: Weather, readings: seq<Reading>) {
    && first.others.None? && second.others.None?
    && AllCalm(readings)
  }

  predicate AllCalm(readings: seq<Reading>) {
    forall i :: 0 <= i < |readings| ==> readings[i].w == CALM
  }

  lemma {:induction false} NobodyWrites(claims: Claims, weathers: seq<Weather>)
    requires forall i :: 0 <= i < |weathers| ==> weathers[i] == CALM
    ensures AfterOthers(claims, weathers) == claims
    decreases |weathers|
  {
    if weathers != [] {
      NobodyWrites(claims, weathers[1..]);
    }
  }

  /** With nobody writing, comparing key by key is comparing all keys at once. */
  lemma CalmReadings(claims: Claims, expected: Scope, readings: seq<Reading>)
    requires AllCalm(readings) && KeysOf(readings) == expected.Keys
    ensures Compared(claims, expected, readings).0 == claims
    ensures Compared(claims, expected, readings).1.Same? <==> FoundAll(claims, expected, readings)
    ensures FoundAll(claims, expected, readings) <==> Matches(claims, expected)
  {
    hide Lookup;
    var weathers := Weathers(readings);
    ComparedMeaning(claims, expected, readings);
    var n :| 0 <= n <= |readings| && Compared(claims, expected, readings).0 == AfterOthers(claims, weathers[..n]);
    NobodyWrites(claims, weathers[..n]);
    forall i | 0 <= i < |readings| ensures ReadAt(claims, readings, i) == claims && readings[i].key in expected {
      NobodyWrites(claims, weathers[..i + 1]);
      assert readings[i].key in KeysOf(readings);
    }
    if FoundAll(claims, expected, readings) {
      forall key | key in expected ensures Lookup(claims, key) == expected[key] {
        assert key in KeysOf(readings);
        var i :| 0 <= i < |readings| && readings[i].key == key;
      }
    }
  }

  /** Alone on the store, a fresh plan takes effect as a whole or not at all, unless the rollback itself fails. */
  lemma CommitAlone(
      identity: string -> string, claims: Claims, plan: Plan, first: Weather, second: Weather, readings: seq<Reading>)
    requires WellFormed(plan) && KeysOf(readings) == plan.before.Keys && Quiet(first, second, readings)
    requires Matches(claims, plan.before) && UniquePaths(identity, claims)
    ensures var (end, outcome) := Carried(identity, claims, plan, first, second, readings);
            && (outcome == Committed ==> end == Applied(claims, plan.after))
            && (outcome == NothingToDo || outcome == OriginalErrorReraised ==> end == claims)
            && outcome != ConflictAfterPreflight
            && (outcome == RollbackIncomplete ==> second.fault != NoFault)
  {
    if plan.changed {
      hide Applied, UniquePaths, Compared, FoundAll, Carried, Matches;
      CommitMeaning(identity, claims, plan, first, second, readings);
      RestoreAlone(identity, claims, plan);
      CalmReadings(claims, plan.before, readings);
      NobodyWritesAtAll(claims, readings);
    }
  }

  lemma NobodyWritesAtAll(claims: Claims, readings: seq<Reading>)
    requires AllCalm(readings)
    ensures forall n :: 0 <= n <= |readings| ==> AfterOthers(claims, Weathers(readings)[..n]) == claims
  {
    forall n | 0 <= n <= |readings| ensures AfterOthers(claims, Weathers(readings)[..n]) == claims {
      NobodyWrites(claims, Weathers(readings)[..n]);
    }
  }

  /**
    On fresh claims the plan can be undone from where its swap leads, and is not mistaken for done where it did
    not.
  */
  lemma RestoreAlone(identity: string -> string, claims: Claims, plan: Plan)
    requires WellFormed(plan) && plan.changed && Matches(claims, plan.before) && UniquePaths(identity, claims)
    ensures !Matches(claims, plan.after) && Matches(Applied(claims, plan.after), plan.after)
    ensures Applied(Applied(claims, plan.after), plan.before) == claims
  {
    var key :| key in plan.before && plan.before[key] != plan.after[key];
    ApplyThenRestore(claims, plan.before, plan.after);
    assert Lookup(claims, key) != plan.after[key];
  }

  // -------------------------------------------------------------- compensating

  /** When a compensation restores, when it finds nothing to do, and when it raises; what it leaves in each case. */
  lemma CompensateMeaning(identity: string -> string, claims: Claims, plan: Plan, w: Weather, readings: seq<Reading>)
    requires WellFormed(plan) && plan.changed && KeysOf(readings) == plan.before.Keys
    ensures var (end, restored) := Compensated(identity, claims, plan, w, readings);
            var at := Seen(claims, w);
            && (restored == Some(true) <==>
                  w.fault == NoFault && Matches(at, plan.after) && UniquePaths(identity, Applied(at, plan.before)))
            && (restored == Some(false) <==>
                  w.fault == NoFault && !Matches(at, plan.after) && FoundAll(at, plan.before, readings))
            && (TakesEffect(identity, at, plan.after, plan.before, w.fault) ==> end == Applied(at, plan.before))
            && (!TakesEffect(identity, at, plan.after, plan.before, w.fault) ==>
                  exists n :: 0 <= n <= |readings| && end == AfterOthers(at, Weathers(readings)[..n]))
  {
    hide Matches, Applied, UniquePaths, FoundAll, Compared;
    ChangingPlan(plan);
    var at := Seen(claims, w);
    SwapMeaning(identity, at, plan.after, plan.before, w.fault);
    ComparedMeaning(at, plan.before, readings);
    assert Weathers(readings)[..0] == [];
    assert AfterOthers(at, Weathers(readings)[..0]) == at;
  }

  /**
    A committed rekey is undone by its receipt: whatever others wrote meanwhile, as long as the moved claims still
    stand and their old paths are free, the keys are as before and every other claim is as the others left it.
  */
  lemma CommitThenCompensate(
      identity: string -> string, claims: Claims, plan: Plan, first: Weather, second: Weather, readings: seq<Reading>,
      w: Weather)
    requires WellFormed(plan) && plan.changed && KeysOf(readings) == plan.before.Keys
    requires Carried(identity, claims, plan, first, second, readings).1 == Committed && w.fault == NoFault
    ensures var committed := Carried(identity, claims, plan, first, second, readings).0;
            var (end, restored) := Compensated(identity, committed, plan, w, readings);
            var now := Seen(committed, w);
            && (Matches(now, plan.after) && UniquePaths(identity, Applied(now, plan.before)) ==>
                  restored == Some(true) && Matches(end, plan.before)
                  && forall key :: key !in plan.before ==> Lookup(end, key) == Lookup(now, key))
            && (w.others.None? && UniquePaths(identity, Seen(claims, first)) ==>
                  restored == Some(true) && end == Seen(claims, first))
  {
    hide Applied, UniquePaths, Compared;
    var at := Seen(claims, first);
    CommitMeaning(identity, claims, plan, first, second, readings);
    var committed := Applied(at, plan.after);
    CompensateMeaning(identity, committed, plan, w, readings);
    AppliedMatches(Seen(committed, w), plan.before);
    AppliedMatches(at, plan.after);
    ApplyThenRestore(at, plan.before, plan.after);
  }

  // --------------------------------------------------------------- registering

  /**
    Where the claims are as observed, writing the observation back along with the replacements changes nothing
    more.
  */
  lemma WritingBackTheObservation(at: Claims, observed: Scope, replacements: Scope)
    requires Matches(at, observed)
    ensures Applied(at, observed + replacements) == Applied(at, replacements)
  {
    forall key | key in observed ensures Lookup(at, key) == observed[key] {}
  }

  /** What was observed when a batch is decided on, and the claims that stood then. */
  lemma DecidingMeaning(
      identity: string -> string, seen: Claims, observed: Scope, replacements: Scope, guarded: Scope,
      present: string -> bool, around: Surroundings)
    requires observed.Keys == guarded.Keys + replacements.Keys && KeysOf(around.readings) == observed.Keys
    ensures var (end, result) := Deciding(identity, seen, observed, replacements, guarded, present, around);
            var at := Seen(seen, around.first);
            && result != ReadFailed
            && (result == MissingArtifact <==> !AllPresent(replacements, present))
            && (result == Registered <==>
                  && AllPresent(replacements, present)
                  && ObservedAs(observed, guarded) && !ObservedAs(observed, replacements)
                  && around.first.fault == NoFault
                  && Matches(at, observed) && UniquePaths(identity, Applied(at, replacements)))
            && (result == Registered ==> Matches(at, guarded) && end == Applied(at, replacements))
            && (result == NotNeeded ==> ObservedAs(observed, guarded) && ObservedAs(observed, replacements))
            && (result == MissingArtifact || result == NotNeeded ==> end == seen)
            && (result == ChangedDuringRegistration ==>
                  || (end == seen && !ObservedAs(observed, guarded))
                  || (end == at && !Matches(at, observed)))
            && (result.Broken? ==>
                  && (result.outcome == OriginalErrorReraised || result.outcome == RollbackIncomplete)
                  && WellFormed(BatchPlan(observed, replacements))
                  && (end, result.outcome) ==
                       Carried(identity, seen, BatchPlan(observed, replacements),
                               around.first, around.second, around.readings))
  {
    hide Matches, Applied, UniquePaths, Carried, ObservedAs, AllPresent, WellFormed;
    if !ObservedAs(observed, replacements) {
      CarriedBatch(identity, seen, observed, replacements, around);
      var at := Seen(seen, around.first);
      if ObservedAs(observed, guarded) && Matches(at, observed) {
        MatchesObserved(at, observed, guarded);
      }
    }
  }

  /** The commit of an observed batch. */
  lemma CarriedBatch(
      identity: string -> string, seen: Claims, observed: Scope, replacements: Scope, around: Surroundings)
    requires replacements.Keys <= observed.Keys && KeysOf(around.readings) == observed.Keys
    requires !ObservedAs(observed, replacements)
    ensures WellFormed(BatchPlan(observed, replacements))
    ensures var (end, outcome) :=
              Carried(identity, seen, BatchPlan(observed, replacements), around.first, around.second, around.readings);
            var at := Seen(seen, around.first);
            && outcome != NothingToDo
            && (outcome == Committed <==>
                  around.first.fault == NoFault && Matches(at, observed)
                      && UniquePaths(identity, Applied(at, replacements)))
            && (outcome == Committed ==> end == Applied(at, replacements))
            && (outcome == ConflictAfterPreflight ==> end == at && !Matches(at, observed))
  {
    BatchPlanChanges(observed, replacements);
    hide Matches, Applied, UniquePaths, Carried, ObservedAs, WellFormed, TakesEffect, FoundAll;
    var at := Seen(seen, around.first);
    CommitMeaning(identity, seen, BatchPlan(observed, replacements), around.first, around.second, around.readings);
    if Matches(at, observed) {
      WritingBackTheObservation(at, observed, replacements);
    }
  }

  lemma MatchesObserved(at: Claims, observed: Scope, scope: Scope)
    requires Matches(at, observed) && scope.Keys <= observed.Keys && ObservedAs(observed, scope)
    ensures Matches(at, scope)
  {
  }

  lemma BatchPlanChanges(observed: Scope, replacements: Scope)
    requires replacements.Keys <= observed.Keys && !ObservedAs(observed, replacements)
    ensures WellFormed(BatchPlan(observed, replacements))
  {
    var key :| key in replacements && observed[key] != replacements[key];
    assert BatchPlan(observed, replacements).after[key] == replacements[key];
  }

  /**
    When a batch is registered, and that it is then at one moment: every guard held, and exactly the batch was
    written over the claims as they stood. No other end writes anything, except a commit that broke.
  */
  lemma RegisterMeaning(
      identity: string -> string, claims: Claims, replacements: Scope, guarded: Scope, present: string -> bool,
      around: Surroundings)
    requires ReadsAll(around, guarded.Keys + replacements.Keys) && replacements != map[]
    ensures Observed(claims, map[], around.observing).1.Some? ==>
              Observed(claims, map[], around.observing).1.value.Keys == guarded.Keys + replacements.Keys
    ensures var (end, result) := Registering(identity, claims, replacements, guarded, present, around);
            var (seen, observed) := Observed(claims, map[], around.observing);
            var at := Seen(seen, around.first);
            && (result == ReadFailed <==> observed.None?)
            && (result == MissingArtifact <==> observed.Some? && !AllPresent(replacements, present))
            && (result == Registered <==>
                  && observed.Some? && AllPresent(replacements, present)
                  && ObservedAs(observed.value, guarded) && !ObservedAs(observed.value, replacements)
                  && around.first.fault == NoFault
                  && Matches(at, observed.value) && UniquePaths(identity, Applied(at, replacements)))
            && (result == Registered ==> Matches(at, guarded) && end == Applied(at, replacements))
            && (result == NotNeeded ==> ObservedAs(observed.value, guarded) && ObservedAs(observed.value, replacements))
            && (result == ReadFailed || result == MissingArtifact || result == NotNeeded ==> end == seen)
            && (result == ChangedDuringRegistration ==>
                  || (end == seen && !ObservedAs(observed.value, guarded))
                  || (end == at && !Matches(at, observed.value)))
            && (result.Broken? ==>
                  && (result.outcome == OriginalErrorReraised || result.outcome == RollbackIncomplete)
                  && WellFormed(BatchPlan(observed.value, replacements))
                  && (end, result.outcome) ==
                       Carried(identity, seen, BatchPlan(observed.value, replacements),
                               around.first, around.second, around.readings))
  {
    hide Matches, Applied, UniquePaths, Carried, Observed, ObservedAs, AllPresent, WellFormed, Deciding;
    ObservedKeys(claims, map[], around.observing);
    var (seen, observed) := Observed(claims, map[], around.observing);
    if observed.Some? {
      DecidingMeaning(identity, seen, observed.value, replacements, guarded, present, around);
    }
  }

  lemma {:induction false} OthersInTurn(claims: Claims, earlier: seq<Weather>, later: seq<Weather>)
    ensures AfterOthers(claims, earlier + later) == AfterOthers(AfterOthers(claims, earlier), later)
    decreases |earlier|
  {
    if earlier == [] {
      assert earlier + later == later;
    } else {
      OthersInTurn(Seen(claims, earlier[0]), earlier[1..], later);
      assert (earlier + later)[1..] == earlier[1..] + later;
    }
  }

  /** A claim outside the batch is at every end just what the other writers made of it, guarded or not. */
  lemma RegisterFollowsOthersElsewhere(
      identity: string -> string, claims: Claims, replacements: Scope, guarded: Scope, present: string -> bool,
      around: Surroundings, key: string)
    requires ReadsAll(around, guarded.Keys + replacements.Keys) && key !in replacements
    ensures exists passed ::
        passed <= Weathers(around.observing) + [around.first, around.second] + Weathers(around.readings)
              && Lookup(Registering(identity, claims, replacements, guarded, present, around).0, key)
                 == Lookup(AfterOthers(claims, passed), key)
  {
    hide Carried, Observed, Lookup, Deciding;
    var end := Registering(identity, claims, replacements, guarded, present, around).0;
    var before := Weathers(around.observing);
    var all := before + [around.first, around.second] + Weathers(around.readings);
    ObservingOnlyReads(claims, map[], around.observing);
    ObservedKeys(claims, map[], around.observing);
    var (seen, observed) := Observed(claims, map[], around.observing);
    var n :| 0 <= n <= |around.observing| && seen == AfterOthers(claims, before[..n]);
    if replacements == map[] {
      assert [] <= all && AfterOthers(claims, []) == end;
    } else if end == seen {
      assert before[..n] <= all;
    } else {
      ObservedAll(claims, around.observing);
      DecidedElsewhere(identity, seen, observed.value, replacements, guarded, present, around, key);
      var passed :| passed <= [around.first, around.second] + Weathers(around.readings)
        && Lookup(end, key) == Lookup(AfterOthers(seen, passed), key);
      OthersInTurn(claims, before, passed);
      assert before + passed <= all;
    }
  }

  lemma ObservedAll(claims: Claims, readings: seq<Reading>)
    ensures var (end, observed) := Observed(claims, map[], readings);
            observed.Some? ==> end == AfterOthers(claims, Weathers(readings))
  {
    ObservedMeaning(claims, map[], readings);
  }

  lemma DecidedElsewhere(
      identity: string -> string, seen: Claims, observed: Scope, replacements: Scope, guarded: Scope,
      present: string -> bool, around: Surroundings, key: string)
    requires observed.Keys == guarded.Keys + replacements.Keys && KeysOf(around.readings) == observed.Keys
    requires key !in replacements
    ensures exists passed :: passed <= [around.first, around.second] + Weathers(around.readings)
              && Lookup(Deciding(identity, seen, observed, replacements, guarded, present, around).0, key)
                 == Lookup(AfterOthers(seen, passed), key)
  {
    hide Carried, Lookup, ObservedAs, AllPresent;
    var all := [around.first, around.second] + Weathers(around.readings);
    assert [] <= all && AfterOthers(seen, []) == seen;
    if !ObservedAs(observed, replacements) {
      BatchPlanChanges(observed, replacements);
      CommitFollowsOthersElsewhere(
        identity, seen, BatchPlan(observed, replacements), around.first, around.second, around.readings, key);
    }
  }

  ghost predicate AllQuiet(around: Surroundings) {
    AllCalm(around.observing) && Quiet(around.first, around.second, around.readings)
  }

  lemma CalmObservation(claims: Claims, readings: seq<Reading>)
    requires AllCalm(readings)
    ensures var (seen, observed) := Observed(claims, map[], readings);
            seen == claims && observed.Some? && Matches(claims, observed.value)
  {
    hide Lookup, Observed;
    ObservedMeaning(claims, map[], readings);
    var n :| 0 <= n <= |readings|
        && Observed(claims, map[], readings).0 == AfterOthers(claims, Weathers(readings)[..n]);
    NobodyWritesAtAll(claims, readings);
    var observed := Observed(claims, map[], readings).1.value;
    forall key | key in observed ensures Lookup(claims, key) == observed[key] {
      assert key in KeysOf(readings);
      var i :| 0 <= i < |readings| && readings[i].key == key
          && observed[key] == Lookup(ReadAt(claims, readings, i), key);
      NobodyWrites(claims, Weathers(readings)[..i + 1]);
    }
  }

  /**
    Alone on the store, a batch is registered as a whole or leaves every claim as it was, unless its own
    rollback fails.
  */
  lemma RegisterAlone(
      identity: string -> string, claims: Claims, replacements: Scope, guarded: Scope, present: string -> bool,
      around: Surroundings)
    requires ReadsAll(around, guarded.Keys + replacements.Keys) && AllQuiet(around) && UniquePaths(identity, claims)
    ensures var (end, result) := Registering(identity, claims, replacements, guarded, present, around);
            && (result == Registered ==> Matches(claims, guarded) && end == Applied(claims, replacements))
            && (result == NotNeeded ==> end == claims && Matches(claims, replacements))
            && (result != Registered && result != Broken(RollbackIncomplete) ==> end == claims)
            && (result == Broken(RollbackIncomplete) ==> around.second.fault != NoFault)
            && (result == ChangedDuringRegistration ==> !Matches(claims, guarded))
  {
    hide Applied, UniquePaths, Carried, Observed, Registering, WellFormed;
    if replacements == map[] {
      EmptyBatch(identity, claims, replacements, guarded, present, around);
    } else {
      RegisterMeaning(identity, claims, replacements, guarded, present, around);
      CalmObservation(claims, around.observing);
      var observed := Observed(claims, map[], around.observing).1.value;
      var result := Registering(identity, claims, replacements, guarded, present, around).1;
      if result.Broken? {
        CommitAlone(identity, claims, BatchPlan(observed, replacements), around.first, around.second, around.readings);
      }
    }
  }

  lemma EmptyBatch(
      identity: string -> string, claims: Claims, replacements: Scope, guarded: Scope, present: string -> bool,
      around: Surroundings)
    requires ReadsAll(around, guarded.Keys + replacements.Keys) && replacements == map[]
    ensures Registering(identity, claims, replacements, guarded, present, around) == (claims, NotNeeded)
  {
  }

  // --------------------------------------------------------------------- store

  /** A manifest that other writers share and whose operations may fail. */
  class SharedStore {
    const identity: string -> string
    var entries: Claims

    constructor (identity: string -> string)
      ensures this.identity == identity && entries == map[]
    {
      this.identity, entries := identity, map[];
    }

    method OthersWrite(w: Weather)
      modifies this
      ensures entries == Seen(old(entries), w)
    {
      if w.others.Some? {
        entries := w.others.value;
      }
    }

    method Swap(expected: Scope, replacements: Scope, fault: Fault) returns (answer: Answer)
      modifies this
      ensures (entries, answer) == FaultySwap(identity, old(entries), expected, replacements, fault)
    {
      hide Matches, Applied, UniquePaths;
      if fault == FailsBefore {
        return Raised;
      }
      answer := Raised;
      var matches := ScopeMatches(entries, expected);
      if !matches {
        answer := Returned(false);
      } else {
        var updated := ApplyScope(entries, replacements);
        if updated == entries {
          answer := Returned(false);
        } else {
          var unique := AssertUniquePaths(identity, updated);
          if unique {
            entries := updated;
            answer := Returned(true);
          }
        }
      }
      if fault == FailsAfter {
        answer := Raised;
      }
    }

    /** Reads the keys one by one, others writing in between, until one differs. */
    method EntriesMatch(expected: Scope, readings: seq<Reading>) returns (found: Comparison)
      requires KeysOf(readings) <= expected.Keys
      modifies this
      ensures (entries, found) == Compared(old(entries), expected, readings)
    {
      assert readings[0..] == readings;
      for i := 0 to |readings|
        invariant KeysOf(readings[i..]) <= expected.Keys
        invariant Compared(old(entries), expected, readings) == Compared(entries, expected, readings[i..])
      {
        var rest := readings[i..];
        FirstKey(rest);
        assert rest[0] == readings[i] && rest[1..] == readings[i + 1..];
        OthersWrite(readings[i].w);
        if readings[i].w.fault != NoFault {
          return Unread;
        }
        if Lookup(entries, readings[i].key) != expected[readings[i].key] {
          return Different;
        }
      }
      found := Same;
    }

    method Commit(plan: Plan, first: Weather, second: Weather, readings: seq<Reading>) returns (outcome: Outcome)
      requires WellFormed(plan) && KeysOf(readings) == plan.before.Keys
      modifies this
      ensures (entries, outcome) == Carried(identity, old(entries), plan, first, second, readings)
    {
      hide FaultySwap, Compared;
      if !plan.changed {
        return NothingToDo;
      }
      OthersWrite(first);
      var answer := Swap(plan.before, plan.after, first.fault);
      if answer.Returned? {
        return if answer.changed then Committed else ConflictAfterPreflight;
      }
      OthersWrite(second);
      answer := Swap(plan.after, plan.before, second.fault);
      if answer.Raised? {
        return RollbackIncomplete;
      }
      if answer.changed {
        return OriginalErrorReraised;
      }
      var found := EntriesMatch(plan.before, readings);
      outcome := if found == Same then OriginalErrorReraised else RollbackIncomplete;
    }

    method Compensate(plan: Plan, w: Weather, readings: seq<Reading>) returns (restored: Option<bool>)
      requires WellFormed(plan) && KeysOf(readings) == plan.before.Keys
      modifies this
      ensures (entries, restored) == Compensated(identity, old(entries), plan, w, readings)
    {
      hide FaultySwap, Compared;
      if !plan.changed {
        return Some(false);
      }
      OthersWrite(w);
      var answer := Swap(plan.after, plan.before, w.fault);
      if answer == Returned(true) {
        return Some(true);
      }
      if answer.Raised? {
        return None;
      }
      var found := EntriesMatch(plan.before, readings);
      restored := if found == Same then Some(false) else None;
    }

    /** One read per key, others writing in between; nothing when a read fails. */
    method Observe(readings: seq<Reading>) returns (observed: Option<Scope>)
      modifies this
      ensures (entries, observed) == Observed(old(entries), map[], readings)
    {
      var known: Scope := map[];
      assert readings[0..] == readings;
      for i := 0 to |readings|
        invariant Observed(old(entries), map[], readings) == Observed(entries, known, readings[i..])
      {
        assert readings[i..][0] == readings[i] && readings[i..][1..] == readings[i + 1..];
        OthersWrite(readings[i].w);
        if readings[i].w.fault != NoFault {
          return None;
        }
        known := known[readings[i].key := Lookup(entries, readings[i].key)];
      }
      observed := Some(known);
    }

    /** Looks for every formal file that the batch claims. */
    method ArtifactsThere(replacements: Scope, present: string -> bool) returns (there: bool)
      ensures there == AllPresent(replacements, present)
    {
      var todo := replacements.Keys;
      while todo != {}
        invariant todo <= replacements.Keys
        invariant forall key :: key in replacements && key !in todo && replacements[key].Some? ==>
                    present(replacements[key].value.path)
        decreases todo
      {
        var key :| key in todo;
        todo := todo - {key};
        if replacements[key].Some? && !present(replacements[key].value.path) {
          return false;
        }
      }
      there := true;
    }

    /** A batch of claims registered together, guarded by claims it was derived from. */
    method Register(replacements: Scope, guarded: Scope, present: string -> bool, around: Surroundings)
      returns (result: Registration)
      requires ReadsAll(around, guarded.Keys + replacements.Keys)
      modifies this
      ensures (entries, result) == Registering(identity, old(entries), replacements, guarded, present, around)
    {
      hide Carried, Observed;
      if replacements == map[] {
        return NotNeeded;
      }
      ObservedKeys(entries, map[], around.observing);
      var read := Observe(around.observing);
      if read.None? {
        return ReadFailed;
      }
      var observed := read.value;
      var there := ArtifactsThere(replacements, present);
      if !there {
        return MissingArtifact;
      }
      if !ObservedAs(observed, guarded) {
        return ChangedDuringRegistration;
      }
      if ObservedAs(observed, replacements) {
        return NotNeeded;
      }
      BatchPlanChanges(observed, replacements);
      var outcome := Commit(BatchPlan(observed, replacements), around.first, around.second, around.readings);
      result := AsRegistration(outcome);
    }

    /** The undo of a single registration when cancellation wins: only while the registered claim still stands. */
    method CompensateRegistration(key: string, registered: Claim, previous: Option<Claim>, changed: bool, fault: Fault)
      modifies this
      ensures entries == old(entries) || (changed && Lookup(old(entries), key) == Some(registered))
      ensures forall other :: other != key ==> Lookup(entries, other) == Lookup(old(entries), other)
      ensures
        (changed && fault == NoFault && Lookup(old(entries), key) == Some(registered)
         && UniquePaths(identity, Applied(old(entries), map[key := previous])))
        ==> Lookup(entries, key) == previous
    {
      hide Applied;
      if !changed {
        return;
      }
      SwapIsGuarded(identity, entries, map[key := Some(registered)], map[key := previous], fault);
      AppliedMatches(entries, map[key := previous]);
      assert Matches(entries, map[key := Some(registered)]) <==> Lookup(entries, key) == Some(registered);
      var _ := Swap(map[key := Some(registered)], map[key := previous], fault);
    }
  }
}
