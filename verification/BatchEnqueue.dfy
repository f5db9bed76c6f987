/**
  Queueing a batch in order: every requested spec is reported once, as queued or as failed, and a spec
  whose dependency could not be queued is never tried.
*/
module BatchEnqueue {
  import opened Prelude

  datatype Spec = Spec(resourceId: string, unitId: Option<string>, dependency: Option<string>)

  /** The ID a spec is reported under. */
  function ReportedId(spec: Spec): string {
    if spec.unitId.Some? && spec.unitId.value != "" then spec.unitId.value else spec.resourceId
  }

  /** What becomes of one spec; a queued one carries its task and the task it waits for. */
  datatype Fate = Queued(taskId: string, dependsOn: Option<string>) | DependencyFailed | Refused | NeverTried

  /** An empty dependency counts as none. */
  function DependencyOf(spec: Spec): Option<string> {
    if spec.dependency.Some? && spec.dependency.value != "" then spec.dependency else None
  }

  /** Some earlier spec for this resource did not reach the queue. */
  predicate FailedBefore(specs: seq<Spec>, fates: seq<Fate>, resource: string)
    requires |fates| <= |specs|
  {
    exists j :: 0 <= j < |fates| && specs[j].resourceId == resource && !fates[j].Queued?
  }

  /** The task of the latest queued spec for this resource. */
  function LatestTask(specs: seq<Spec>, fates: seq<Fate>, resource: string): Option<string>
    requires |fates| <= |specs|
  {
    if fates == [] then None
    else
      var n := |fates| - 1;
      if specs[n].resourceId == resource && fates[n].Queued? then Some(fates[n].taskId)
      else LatestTask(specs, fates[..n], resource)
  }

  predicate Stopped(fates: seq<Fate>, stopOnFailure: bool) {
    stopOnFailure && exists j :: 0 <= j < |fates| && fates[j].Refused?
  }

  /** The fate of the next spec; `answer` is the queue's task, or nothing where it refuses. */
  function NextFate(specs: seq<Spec>, fates: seq<Fate>, stopOnFailure: bool, answer: Option<string>): Fate
    requires |fates| < |specs|
  {
    var dependency := DependencyOf(specs[|fates|]);
    if Stopped(fates, stopOnFailure) then NeverTried
    else if dependency.Some? && FailedBefore(specs, fates, dependency.value) then DependencyFailed
    else if answer.None? then Refused
    else Queued(answer.value, if dependency.Some? then LatestTask(specs, fates, dependency.value) else None)
  }

  function Fates(specs: seq<Spec>, answers: seq<Option<string>>, stopOnFailure: bool, k: nat): (fates: seq<Fate>)
    requires k <= |specs| && |answers| == |specs|
    ensures |fates| == k
  {
    if k == 0 then []
    else
      var before := Fates(specs, answers, stopOnFailure, k - 1);
      before + [NextFate(specs, before, stopOnFailure, answers[k - 1])]
  }

  lemma {:induction false} FatesPrefix(specs: seq<Spec>, answers: seq<Option<string>>, stopOnFailure: bool, j: nat,
      k: nat)
    requires j <= k <= |specs| && |answers| == |specs|
    ensures Fates(specs, answers, stopOnFailure, k)[..j] == Fates(specs, answers, stopOnFailure, j)
  {
    if j < k {
      FatesPrefix(specs, answers, stopOnFailure, j, k - 1);
      assert Fates(specs, answers, stopOnFailure, k)[..j] == Fates(specs, answers, stopOnFailure, k - 1)[..j];
    }
  }

  lemma FateAt(specs: seq<Spec>, answers: seq<Option<string>>, stopOnFailure: bool, i: nat)
    requires i < |specs| && |answers| == |specs|
    ensures Fates(specs, answers, stopOnFailure, |specs|)[i] ==
              NextFate(specs, Fates(specs, answers, stopOnFailure, i), stopOnFailure, answers[i])
    ensures Fates(specs, answers, stopOnFailure, |specs|)[..i] == Fates(specs, answers, stopOnFailure, i)
  {
    FatesPrefix(specs, answers, stopOnFailure, i + 1, |specs|);
    FatesPrefix(specs, answers, stopOnFailure, i, |specs|);
    var all := Fates(specs, answers, stopOnFailure, |specs|);
    assert all[i] == all[..i + 1][i];
  }

  /** A queued spec never depends on a resource that failed before it, and it waits for that resource's task. */
  lemma QueuedDependenciesAreQueued(
      specs: seq<Spec>, answers: seq<Option<string>>, stopOnFailure: bool, i: nat, j: nat)
    requires j < i < |specs| && |answers| == |specs|
    requires var fates := Fates(specs, answers, stopOnFailure, |specs|);
             fates[i].Queued? && DependencyOf(specs[i]) == Some(specs[j].resourceId)
    ensures var fates := Fates(specs, answers, stopOnFailure, |specs|);
            && fates[j].Queued?
            && fates[i].dependsOn.Some?
            && ((forall k :: j < k < i ==> specs[k].resourceId != specs[j].resourceId) ==>
                  fates[i].dependsOn == Some(fates[j].taskId))
  {
    var fates := Fates(specs, answers, stopOnFailure, |specs|);
    FateAt(specs, answers, stopOnFailure, i);
    assert fates[..i][j] == fates[j];
    LatestTaskMeaning(specs, fates[..i], specs[j].resourceId, j);
  }

  lemma {:induction false} LatestTaskMeaning(specs: seq<Spec>, fates: seq<Fate>, resource: string, j: nat)
    requires j < |fates| <= |specs| && specs[j].resourceId == resource && fates[j].Queued?
    ensures LatestTask(specs, fates, resource).Some?
    ensures (forall k :: j < k < |fates| ==> specs[k].resourceId != resource) ==>
              LatestTask(specs, fates, resource) == Some(fates[j].taskId)
  {
    if j < |fates| - 1 {
      LatestTaskMeaning(specs, fates[..|fates| - 1], resource, j);
    }
  }

  /** With stop-on-failure nothing is queued, or even tried, after the first failure. */
  lemma NothingAfterTheFirstFailure(specs: seq<Spec>, answers: seq<Option<string>>, i: nat, j: nat)
    requires i < j < |specs| && |answers| == |specs|
    requires !Fates(specs, answers, true, |specs|)[i].Queued?
    ensures Fates(specs, answers, true, |specs|)[j] == NeverTried
  {
    var fates := Fates(specs, answers, true, |specs|);
    FateAt(specs, answers, true, j);
    var first := FirstFailureIsRefusal(specs, answers, i);
    assert fates[..j][first] == fates[first];
  }

  lemma {:induction false} FirstFailureIsRefusal(specs: seq<Spec>, answers: seq<Option<string>>, i: nat)
      returns (first: nat)
    requires i < |specs| && |answers| == |specs|
    requires !Fates(specs, answers, true, |specs|)[i].Queued?
    ensures first <= i && Fates(specs, answers, true, |specs|)[first].Refused?
  {
    var fates := Fates(specs, answers, true, |specs|);
    FateAt(specs, answers, true, i);
    if exists k :: 0 <= k < i && !fates[k].Queued? {
      var k :| 0 <= k < i && !fates[k].Queued?;
      first := FirstFailureIsRefusal(specs, answers, k);
    } else {
      assert forall k :: 0 <= k < i ==> fates[..i][k] == fates[k];
      first := i;
    }
  }

  // ----------------------------------------------------------------- reporting

  datatype Report = Report(id: string, taskId: string, interrupted: bool)

  function QueuedOne(spec: Spec, fate: Fate): (r: seq<Report>)
    ensures |r| <= 1
  {
    if fate.Queued? then [Report(ReportedId(spec), fate.taskId, false)] else []
  }

  function FailedOne(spec: Spec, fate: Fate, stopOnFailure: bool): (r: seq<Report>)
    ensures |r| <= 1
  {
    match fate
    case Queued(_, _) => []
    case DependencyFailed => [Report(ReportedId(spec), "", false)]
    case Refused => [Report(ReportedId(spec), "", stopOnFailure)]
    case NeverTried => [Report(ReportedId(spec), "", true)]
  }

  function QueuedReports(specs: seq<Spec>, fates: seq<Fate>): seq<Report>
    requires |fates| <= |specs|
  {
    if fates == [] then []
    else QueuedReports(specs, fates[..|fates| - 1]) + QueuedOne(specs[|fates| - 1], fates[|fates| - 1])
  }

  function FailureReports(specs: seq<Spec>, fates: seq<Fate>, stopOnFailure: bool): seq<Report>
    requires |fates| <= |specs|
  {
    if fates == [] then []
    else
      FailureReports(specs, fates[..|fates| - 1], stopOnFailure)
      + FailedOne(specs[|fates| - 1], fates[|fates| - 1], stopOnFailure)
  }

  function Ids(reports: seq<Report>): multiset<string> {
    if reports == [] then multiset{} else Ids(reports[..|reports| - 1]) + multiset{reports[|reports| - 1].id}
  }

  function RequestedIds(specs: seq<Spec>, k: nat): multiset<string>
    requires k <= |specs|
  {
    if k == 0 then multiset{} else RequestedIds(specs, k - 1) + multiset{ReportedId(specs[k - 1])}
  }

  lemma IdsSnoc(reports: seq<Report>, last: seq<Report>)
    requires |last| <= 1
    ensures Ids(reports + last) == Ids(reports) + Ids(last)
  {
    if last == [] {
      assert reports + last == reports;
    } else {
      assert (reports + last)[..|reports|] == reports;
      assert last[..0] == [];
    }
  }

  /** One spec, one report. */
  lemma OneReportEach(spec: Spec, fate: Fate, stopOnFailure: bool)
    ensures Ids(QueuedOne(spec, fate)) + Ids(FailedOne(spec, fate, stopOnFailure)) == multiset{ReportedId(spec)}
    ensures Ids(QueuedOne(spec, fate)) == if fate.Queued? then multiset{ReportedId(spec)} else multiset{}
  {
    var queued, failed := QueuedOne(spec, fate), FailedOne(spec, fate, stopOnFailure);
    assert queued[..0] == [] && failed[..0] == [];
  }

  /** Every requested spec is reported once: as many reports under each ID as specs ask for it. */
  lemma {:induction false} EveryRequestIsReportedOnce(specs: seq<Spec>, fates: seq<Fate>, stopOnFailure: bool)
    requires |fates| <= |specs|
    ensures Ids(QueuedReports(specs, fates)) + Ids(FailureReports(specs, fates, stopOnFailure))
        == RequestedIds(specs, |fates|)
  {
    hide Ids, QueuedOne, FailedOne;
    if fates != [] {
      var n := |fates| - 1;
      EveryRequestIsReportedOnce(specs, fates[..n], stopOnFailure);
      IdsSnoc(QueuedReports(specs, fates[..n]), QueuedOne(specs[n], fates[n]));
      IdsSnoc(FailureReports(specs, fates[..n], stopOnFailure), FailedOne(specs[n], fates[n], stopOnFailure));
      OneReportEach(specs[n], fates[n], stopOnFailure);
    } else {
      NoIds();
    }
  }

  lemma NoIds()
    ensures Ids([]) == multiset{}
  {
  }

  /** The sequential enqueue: the loop, its early end, and the reports of what it never reached. */
  method EnqueueSequentially(specs: seq<Spec>, answers: seq<Option<string>>, stopOnFailure: bool)
    returns (enqueued: seq<Report>, failures: seq<Report>)
    requires |answers| == |specs|
    ensures var fates := Fates(specs, answers, stopOnFailure, |specs|);
            && enqueued == QueuedReports(specs, fates)
            && failures == FailureReports(specs, fates, stopOnFailure)
  {
    hide QueuedReports, FailureReports, FailedBefore, LatestTask, Stopped;
    NothingYet(specs, stopOnFailure);
    enqueued, failures := [], [];
    var taskIds: map<string, string> := map[];
    var failedResources: set<string> := {};
    var index := 0;
    ghost var fates: seq<Fate> := [];
    var stopped := false;
    while index < |specs| && !stopped
      invariant 0 <= index <= |specs| && fates == Fates(specs, answers, stopOnFailure, index)
      invariant enqueued == QueuedReports(specs, fates) && failures == FailureReports(specs, fates, stopOnFailure)
      invariant forall r :: r in failedResources <==> FailedBefore(specs, fates, r)
      invariant forall r :: (if r in taskIds then Some(taskIds[r]) else None) == LatestTask(specs, fates, r)
      invariant stopped == Stopped(fates, stopOnFailure)
      decreases |specs| - index
    {
      var spec := specs[index];
      ghost var before := fates;
      ghost var fate := NextFate(specs, before, stopOnFailure, answers[index]);
      fates := before + [fate];
      ReportsSnoc(specs, before, fate, stopOnFailure);
      var dependency := DependencyOf(spec);
      if dependency.Some? && dependency.value in failedResources {
        failures := failures + [Report(ReportedId(spec), "", false)];
        failedResources := failedResources + {spec.resourceId};
      } else if answers[index].None? {
        failures := failures + [Report(ReportedId(spec), "", stopOnFailure)];
        failedResources := failedResources + {spec.resourceId};
        stopped := stopOnFailure;
      } else {
        taskIds := taskIds[spec.resourceId := answers[index].value];
        enqueued := enqueued + [Report(ReportedId(spec), answers[index].value, false)];
      }
      OneMoreFate(specs, before, fate, stopOnFailure);
      index := index + 1;
    }
    while index < |specs|
      invariant 0 <= index <= |specs| && fates == Fates(specs, answers, stopOnFailure, index)
      invariant index < |specs| ==> Stopped(fates, stopOnFailure)
      invariant enqueued == QueuedReports(specs, fates) && failures == FailureReports(specs, fates, stopOnFailure)
    {
      ghost var before := fates;
      fates := before + [NeverTried];
      ReportsSnoc(specs, before, NeverTried, stopOnFailure);
      failures := failures + [Report(ReportedId(specs[index]), "", true)];
      OneMoreFate(specs, before, NeverTried, stopOnFailure);
      index := index + 1;
    }
  }

  lemma NothingYet(specs: seq<Spec>, stopOnFailure: bool)
    ensures QueuedReports(specs, []) == [] && FailureReports(specs, [], stopOnFailure) == []
    ensures !Stopped([], stopOnFailure)
    ensures forall r :: !FailedBefore(specs, [], r) && LatestTask(specs, [], r).None?
  {
  }

  lemma ReportsSnoc(specs: seq<Spec>, fates: seq<Fate>, fate: Fate, stopOnFailure: bool)
    requires |fates| < |specs|
    ensures QueuedReports(specs, fates + [fate]) == QueuedReports(specs, fates) + QueuedOne(specs[|fates|], fate)
    ensures FailureReports(specs, fates + [fate], stopOnFailure)
            == FailureReports(specs, fates, stopOnFailure) + FailedOne(specs[|fates|], fate, stopOnFailure)
  {
    assert (fates + [fate])[..|fates|] == fates;
  }

  lemma OneMoreFate(specs: seq<Spec>, fates: seq<Fate>, fate: Fate, stopOnFailure: bool)
    requires |fates| < |specs|
    ensures var n, more := |fates|, fates + [fate];
            && (forall r :: FailedBefore(specs, more, r) <==>
                FailedBefore(specs, fates, r) || (specs[n].resourceId == r && !fate.Queued?))
            && (forall r :: LatestTask(specs, more, r) ==
                  if specs[n].resourceId == r && fate.Queued? then Some(fate.taskId) else LatestTask(specs, fates, r))
            && (Stopped(more, stopOnFailure) <==> Stopped(fates, stopOnFailure) || (stopOnFailure && fate.Refused?))
  {
    var n, more := |fates|, fates + [fate];
    assert more[..n] == fates;
    assert forall j :: 0 <= j < n ==> more[j] == fates[j];
    assert more[n] == fate;
  }

  // ----------------------------------------------------------- enqueue and wait

  /** Waiting goes by reported ID, so every spec that shares an ID with a queued one is waited for. */
  function Waited(specs: seq<Spec>, fates: seq<Fate>, k: nat): multiset<string>
    requires k <= |specs| && |fates| == |specs|
  {
    if k == 0 then multiset{}
    else
      Waited(specs, fates, k - 1)
      + (if SharesQueuedId(specs, fates, k - 1) then multiset{ReportedId(specs[k - 1])} else multiset{})
  }

  predicate SharesQueuedId(specs: seq<Spec>, fates: seq<Fate>, i: nat)
    requires i < |specs| && |fates| == |specs|
  {
    exists j :: 0 <= j < |specs| && fates[j].Queued? && ReportedId(specs[j]) == ReportedId(specs[i])
  }

  /** All results of an enqueue-and-wait, by ID. */
  function AllResults(specs: seq<Spec>, answers: seq<Option<string>>, stopOnFailure: bool): multiset<string>
    requires |answers| == |specs|
  {
    var fates := Fates(specs, answers, stopOnFailure, |specs|);
    Waited(specs, fates, |specs|) + Ids(FailureReports(specs, fates, stopOnFailure))
  }

  predicate DistinctIds(specs: seq<Spec>) {
    forall i, j :: 0 <= i < j < |specs| ==> ReportedId(specs[i]) != ReportedId(specs[j])
  }

  lemma QueuedUpTo(specs: seq<Spec>, fates: seq<Fate>, k: nat)
    requires 0 < k <= |fates| <= |specs|
    ensures Ids(QueuedReports(specs, fates[..k]))
            == Ids(QueuedReports(specs, fates[..k - 1]))
               + (if fates[k - 1].Queued? then multiset{ReportedId(specs[k - 1])} else multiset{})
    ensures |fates| == |specs| && fates[k - 1].Queued? ==> SharesQueuedId(specs, fates, k - 1)
  {
    hide Ids, QueuedOne;
    assert fates[..k][..k - 1] == fates[..k - 1];
    IdsSnoc(QueuedReports(specs, fates[..k - 1]), QueuedOne(specs[k - 1], fates[k - 1]));
    OneReportEach(specs[k - 1], fates[k - 1], false);
  }

  lemma {:induction false} WaitedIsQueued(specs: seq<Spec>, fates: seq<Fate>, k: nat)
    requires k <= |specs| && |fates| == |specs|
    requires forall i :: 0 <= i < |specs| && SharesQueuedId(specs, fates, i) ==> fates[i].Queued?
    ensures Waited(specs, fates, k) == Ids(QueuedReports(specs, fates[..k]))
  {
    hide Ids, QueuedReports, SharesQueuedId, Waited;
    WaitedSoFar(specs, fates, k);
    if k == 0 {
      NothingYet(specs, false);
      NoIds();
      assert fates[..0] == [];
    } else {
      WaitedIsQueued(specs, fates, k - 1);
      QueuedUpTo(specs, fates, k);
    }
  }

  lemma WaitedSoFar(specs: seq<Spec>, fates: seq<Fate>, k: nat)
    requires k <= |specs| && |fates| == |specs|
    ensures k == 0 ==> Waited(specs, fates, k) == multiset{}
    ensures k > 0 ==>
              Waited(specs, fates, k) ==
                Waited(specs, fates, k - 1)
                + (if SharesQueuedId(specs, fates, k - 1) then multiset{ReportedId(specs[k - 1])} else multiset{})
  {
  }

  lemma {:induction false} WaitedCount(specs: seq<Spec>, fates: seq<Fate>, k: nat, extra: nat)
    requires k <= |specs| && |fates| == |specs|
    requires extra < |specs| && SharesQueuedId(specs, fates, extra) && !fates[extra].Queued?
    ensures |Waited(specs, fates, k)| >= |Ids(QueuedReports(specs, fates[..k]))| + (if extra < k then 1 else 0)
  {
    hide Ids, QueuedReports, SharesQueuedId, Waited;
    if k > 0 {
      WaitedCount(specs, fates, k - 1, extra);
      QueuedUpTo(specs, fates, k);
      CountsGrow(specs, fates, k);
    } else {
      NothingYet(specs, false);
      NoIds();
      assert fates[..0] == [];
    }
  }

  lemma CountsGrow(specs: seq<Spec>, fates: seq<Fate>, k: nat)
    requires 0 < k <= |specs| && |fates| == |specs|
    ensures |Waited(specs, fates, k)|
        == |Waited(specs, fates, k - 1)| + (if SharesQueuedId(specs, fates, k - 1) then 1 else 0)
    ensures |Ids(QueuedReports(specs, fates[..k]))| ==
              |Ids(QueuedReports(specs, fates[..k - 1]))| + (if fates[k - 1].Queued? then 1 else 0)
  {
    hide Ids, QueuedReports, SharesQueuedId;
    QueuedUpTo(specs, fates, k);
  }

  /**
    Enqueue-and-wait reports every spec exactly once whatever the queue answers, exactly when the specs'
    reported IDs are distinct: a failed spec that shares its ID with a queued one is reported twice.
  */
  lemma WaitingReportsOnceExactlyForDistinctIds(specs: seq<Spec>, stopOnFailure: bool)
    ensures DistinctIds(specs) <==>
              forall answers :: |answers| == |specs| ==>
                  AllResults(specs, answers, stopOnFailure) == RequestedIds(specs, |specs|)
  {
    hide Ids, QueuedReports, FailureReports, Waited, RequestedIds, Fates;
    if DistinctIds(specs) {
      forall answers | |answers| == |specs|
        ensures AllResults(specs, answers, stopOnFailure) == RequestedIds(specs, |specs|)
      {
        var fates := Fates(specs, answers, stopOnFailure, |specs|);
        WaitedIsQueued(specs, fates, |specs|);
        assert fates[..|specs|] == fates;
        EveryRequestIsReportedOnce(specs, fates, stopOnFailure);
      }
    } else {
      var i, j :| 0 <= i < j < |specs| && ReportedId(specs[i]) == ReportedId(specs[j]);
      var answers := OneRefusal(specs, stopOnFailure, i, j);
      TwiceReported(specs, answers, stopOnFailure, i, j);
    }
  }

  lemma TwiceReported(specs: seq<Spec>, answers: seq<Option<string>>, stopOnFailure: bool, i: nat, j: nat)
    requires i < |specs| && j < |specs| && |answers| == |specs| && ReportedId(specs[i]) == ReportedId(specs[j])
    requires var fates := Fates(specs, answers, stopOnFailure, |specs|); fates[i].Queued? && !fates[j].Queued?
    ensures AllResults(specs, answers, stopOnFailure) != RequestedIds(specs, |specs|)
  {
    hide Ids, QueuedReports, FailureReports, Waited, RequestedIds, Fates;
    var fates := Fates(specs, answers, stopOnFailure, |specs|);
    assert SharesQueuedId(specs, fates, j);
    WaitedCount(specs, fates, |specs|, j);
    assert fates[..|specs|] == fates;
    EveryRequestIsReportedOnce(specs, fates, stopOnFailure);
    assert |AllResults(specs, answers, stopOnFailure)| > |RequestedIds(specs, |specs|)|;
  }

  /** The queue takes everything but spec `j`. */
  lemma OneRefusal(specs: seq<Spec>, stopOnFailure: bool, i: nat, j: nat) returns (answers: seq<Option<string>>)
    requires i < j < |specs|
    ensures |answers| == |specs|
    ensures var fates := Fates(specs, answers, stopOnFailure, |specs|); fates[i].Queued? && fates[j].Refused?
  {
    answers := seq(|specs|, k => if k == j then None else Some("task"));
    AllQueuedUpTo(specs, answers, stopOnFailure, j);
    FateAt(specs, answers, stopOnFailure, j);
    FateAt(specs, answers, stopOnFailure, i);
    FatesPrefix(specs, answers, stopOnFailure, i, j);
    var all := Fates(specs, answers, stopOnFailure, |specs|);
    assert all[i] == all[..j][i];
  }

  lemma {:induction false} AllQueuedUpTo(specs: seq<Spec>, answers: seq<Option<string>>, stopOnFailure: bool, k: nat)
    requires k <= |specs| && |answers| == |specs|
    requires forall i :: 0 <= i < k ==> answers[i].Some?
    ensures forall i :: 0 <= i < k ==> Fates(specs, answers, stopOnFailure, k)[i].Queued?
  {
    if k > 0 {
      AllQueuedUpTo(specs, answers, stopOnFailure, k - 1);
    }
  }

  /** The task waited for under an ID: the last one queued under it. */
  function TaskFor(specs: seq<Spec>, fates: seq<Fate>, id: string): Option<string>
    requires |fates| <= |specs|
  {
    if fates == [] then None
    else
      var n := |fates| - 1;
      if fates[n].Queued? && ReportedId(specs[n]) == id then Some(fates[n].taskId) else TaskFor(specs, fates[..n], id)
  }

  function OutcomeOf(id: string, task: Option<string>, success: bool, succeeded: string -> bool): seq<Report> {
    if task.Some? && succeeded(task.value) == success then [Report(id, task.value, false)] else []
  }

  /** The waited-for reports of the first `k` specs that succeeded, or those that did not, in order. */
  function Outcomes(specs: seq<Spec>, fates: seq<Fate>, k: nat, success: bool, succeeded: string -> bool): seq<Report>
    requires k <= |specs| && |fates| <= |specs|
  {
    if k == 0 then []
    else
      var id := ReportedId(specs[k - 1]);
      Outcomes(specs, fates, k - 1, success, succeeded) + OutcomeOf(id, TaskFor(specs, fates, id), success, succeeded)
  }

  lemma {:induction false} TaskForMeaning(specs: seq<Spec>, fates: seq<Fate>, id: string)
    requires |fates| <= |specs|
    ensures TaskFor(specs, fates, id).Some? <==>
              exists j :: 0 <= j < |fates| && fates[j].Queued? && ReportedId(specs[j]) == id
  {
    if fates != [] {
      var n := |fates| - 1;
      TaskForMeaning(specs, fates[..n], id);
      assert forall j :: 0 <= j < n ==> fates[..n][j] == fates[j];
    }
  }

  lemma {:induction false} OutcomesAreWaited(specs: seq<Spec>, fates: seq<Fate>, k: nat, succeeded: string -> bool)
    requires k <= |specs| && |fates| == |specs|
    ensures Ids(Outcomes(specs, fates, k, true, succeeded)) + Ids(Outcomes(specs, fates, k, false, succeeded))
            == Waited(specs, fates, k)
  {
    hide Ids, Outcomes, Waited;
    if k == 0 {
      NoOutcomes(specs, fates, succeeded);
    } else {
      OutcomesAreWaited(specs, fates, k - 1, succeeded);
      OneMoreOutcome(specs, fates, k, true, succeeded);
      OneMoreOutcome(specs, fates, k, false, succeeded);
      OneMoreWaited(specs, fates, k, succeeded);
    }
  }

  lemma NoOutcomes(specs: seq<Spec>, fates: seq<Fate>, succeeded: string -> bool)
    requires |fates| == |specs|
    ensures Outcomes(specs, fates, 0, true, succeeded) == [] && Outcomes(specs, fates, 0, false, succeeded) == []
    ensures Ids([]) + Ids([]) == Waited(specs, fates, 0)
  {
  }

  lemma OneMoreOutcome(specs: seq<Spec>, fates: seq<Fate>, k: nat, success: bool, succeeded: string -> bool)
    requires 0 < k <= |specs| && |fates| == |specs|
    ensures var id := ReportedId(specs[k - 1]);
            Ids(Outcomes(specs, fates, k, success, succeeded)) ==
              Ids(Outcomes(specs, fates, k - 1, success, succeeded))
              + Ids(OutcomeOf(id, TaskFor(specs, fates, id), success, succeeded))
  {
    hide Ids, TaskFor;
    var id := ReportedId(specs[k - 1]);
    IdsSnoc(Outcomes(specs, fates, k - 1, success, succeeded),
        OutcomeOf(id, TaskFor(specs, fates, id), success, succeeded));
  }

  lemma OneMoreWaited(specs: seq<Spec>, fates: seq<Fate>, k: nat, succeeded: string -> bool)
    requires 0 < k <= |specs| && |fates| == |specs|
    ensures var id := ReportedId(specs[k - 1]);
            var task := TaskFor(specs, fates, id);
            Waited(specs, fates, k) ==
              Waited(specs, fates, k - 1)
              + Ids(OutcomeOf(id, task, true, succeeded)) + Ids(OutcomeOf(id, task, false, succeeded))
  {
    hide Ids, TaskFor, SharesQueuedId;
    var id := ReportedId(specs[k - 1]);
    var task := TaskFor(specs, fates, id);
    TaskForShares(specs, fates, k - 1);
    NoIds();
    if task.Some? {
      OneId(Report(id, task.value, false));
    }
  }

  lemma TaskForShares(specs: seq<Spec>, fates: seq<Fate>, i: nat)
    requires i < |specs| && |fates| == |specs|
    ensures TaskFor(specs, fates, ReportedId(specs[i])).Some? <==> SharesQueuedId(specs, fates, i)
  {
    TaskForMeaning(specs, fates, ReportedId(specs[i]));
  }

  /** The failures of an enqueue-and-wait: the tasks that did not succeed, then the specs that were never queued. */
  function AllFailures(
      specs: seq<Spec>, answers: seq<Option<string>>, stopOnFailure: bool, succeeded: string -> bool): seq<Report>
    requires |answers| == |specs|
  {
    var fates := Fates(specs, answers, stopOnFailure, |specs|);
    Outcomes(specs, fates, |specs|, false, succeeded) + FailureReports(specs, fates, stopOnFailure)
  }

  function AllSuccesses(
      specs: seq<Spec>, answers: seq<Option<string>>, stopOnFailure: bool, succeeded: string -> bool): seq<Report>
    requires |answers| == |specs|
  {
    Outcomes(specs, Fates(specs, answers, stopOnFailure, |specs|), |specs|, true, succeeded)
  }

  /** Successes and failures together are the results that the statement about reporting once is about. */
  lemma SuccessesAndFailuresAreAllResults(
      specs: seq<Spec>, answers: seq<Option<string>>, stopOnFailure: bool, succeeded: string -> bool)
    requires |answers| == |specs|
    ensures Ids(AllSuccesses(specs, answers, stopOnFailure, succeeded))
            + Ids(AllFailures(specs, answers, stopOnFailure, succeeded)) == AllResults(specs, answers, stopOnFailure)
  {
    hide Ids, Outcomes, FailureReports, Waited, Fates;
    var fates := Fates(specs, answers, stopOnFailure, |specs|);
    OutcomesAreWaited(specs, fates, |specs|, succeeded);
    IdsConcat(Outcomes(specs, fates, |specs|, false, succeeded), FailureReports(specs, fates, stopOnFailure));
  }

  /** Queues in order, then waits for everything that reached the queue; `succeeded` is each task's outcome. */
  method EnqueueAndWait(specs: seq<Spec>, answers: seq<Option<string>>, stopOnFailure: bool, succeeded: string -> bool)
    returns (successes: seq<Report>, failures: seq<Report>)
    requires |answers| == |specs|
    ensures successes == AllSuccesses(specs, answers, stopOnFailure, succeeded)
    ensures failures == AllFailures(specs, answers, stopOnFailure, succeeded)
  {
    hide QueuedReports, FailureReports, Fates, TaskFor;
    var enqueued, refused := EnqueueSequentially(specs, answers, stopOnFailure);
    ghost var fates := Fates(specs, answers, stopOnFailure, |specs|);
    var taskIds := CollectTasks(specs, fates, enqueued);
    successes, failures := [], [];
    for i := 0 to |specs|
      invariant successes == Outcomes(specs, fates, i, true, succeeded)
      invariant failures == Outcomes(specs, fates, i, false, succeeded)
    {
      var id := ReportedId(specs[i]);
      if id in taskIds {
        var report := Report(id, taskIds[id], false);
        if succeeded(taskIds[id]) {
          successes := successes + [report];
        } else {
          failures := failures + [report];
        }
      }
    }
    failures := failures + refused;
  }

  lemma OneId(report: Report)
    ensures Ids([report]) == multiset{report.id}
  {
    assert [report][..0] == [];
  }

  lemma {:induction false} IdsConcat(a: seq<Report>, b: seq<Report>)
    ensures Ids(a + b) == Ids(a) + Ids(b)
  {
    hide Ids;
    NoIds();
    if b == [] {
      assert a + b == a;
    } else {
      var front, last := b[..|b| - 1], [b[|b| - 1]];
      IdsConcat(a, front);
      IdsSnoc(a + front, last);
      IdsSnoc(front, last);
      assert (a + front) + last == a + b && front + last == b;
    }
  }

  /** `{unit_id or resource_id: task_id}` over what was queued; a later task replaces an earlier one. */
  method CollectTasks(specs: seq<Spec>, ghost fates: seq<Fate>, enqueued: seq<Report>)
      returns (taskIds: map<string, string>)
    requires |fates| <= |specs| && enqueued == QueuedReports(specs, fates)
    ensures forall id :: id in taskIds <==> TaskFor(specs, fates, id).Some?
    ensures forall id :: id in taskIds ==> taskIds[id] == TaskFor(specs, fates, id).value
  {
    taskIds := map[];
    for k := 0 to |enqueued|
      invariant taskIds == TasksById(enqueued[..k])
    {
      assert enqueued[..k + 1][..k] == enqueued[..k];
      taskIds := taskIds[enqueued[k].id := enqueued[k].taskId];
    }
    assert enqueued[..|enqueued|] == enqueued;
    TasksByIdMeaning(specs, fates);
  }

  function TasksById(reports: seq<Report>): map<string, string> {
    if reports == [] then map[]
    else TasksById(reports[..|reports| - 1])[reports[|reports| - 1].id := reports[|reports| - 1].taskId]
  }

  lemma {:induction false} TasksByIdMeaning(specs: seq<Spec>, fates: seq<Fate>)
    requires |fates| <= |specs|
    ensures var tasks := TasksById(QueuedReports(specs, fates));
            && (forall id :: id in tasks <==> TaskFor(specs, fates, id).Some?)
            && (forall id :: id in tasks ==> tasks[id] == TaskFor(specs, fates, id).value)
  {
    if fates != [] {
      var n := |fates| - 1;
      var earlier, all := QueuedReports(specs, fates[..n]), QueuedReports(specs, fates);
      TasksByIdMeaning(specs, fates[..n]);
      if fates[n].Queued? {
        assert all == earlier + [Report(ReportedId(specs[n]), fates[n].taskId, false)];
        assert all[..|all| - 1] == earlier;
      } else {
        assert all == earlier;
      }
    }
  }

  /** Whatever the queue answers, every requested ID is reported at least as often as it is requested. */
  lemma NobodyGoesUnreported(specs: seq<Spec>, answers: seq<Option<string>>, stopOnFailure: bool)
    requires |answers| == |specs|
    ensures RequestedIds(specs, |specs|) <= AllResults(specs, answers, stopOnFailure)
  {
    hide Ids, QueuedReports, FailureReports, Waited, RequestedIds, Fates;
    var fates := Fates(specs, answers, stopOnFailure, |specs|);
    EveryRequestIsReportedOnce(specs, fates, stopOnFailure);
    QueuedAreWaitedFor(specs, fates, |specs|);
    assert fates[..|specs|] == fates;
  }

  lemma {:induction false} QueuedAreWaitedFor(specs: seq<Spec>, fates: seq<Fate>, k: nat)
    requires k <= |specs| && |fates| == |specs|
    ensures Ids(QueuedReports(specs, fates[..k])) <= Waited(specs, fates, k)
  {
    hide Ids, QueuedReports, SharesQueuedId;
    if k > 0 {
      QueuedAreWaitedFor(specs, fates, k - 1);
      QueuedUpTo(specs, fates, k);
    } else {
      NothingYet(specs, false);
      NoIds();
      assert fates[..0] == [];
    }
  }
}
