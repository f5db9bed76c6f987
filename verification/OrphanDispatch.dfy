/**
  One provider's video lane while the background dispatcher resumes a batch of orphans beside the
  claim loop. A step is what happens between two suspension points; steps interleave freely.
*/
module OrphanDispatch {
  import opened Prelude
  import opened SlotTables

  /** The lane's bucket, the dispatched batch, the orphans inside the semaphore, and its free permits. */
  datatype LaneState = LaneState(bucket: Bucket, batch: set<string>, holding: set<string>, permits: int)

  datatype Event =
    | Claim(task: string, handle: int)
    | RegisterBatch(tasks: map<string, int>)
    | Acquire(task: string, stopped: bool)
    | Finish(task: string)
    | CancelWaiting(task: string)
    | Drain(done: set<int>)

  const IDLE := LaneState(map[], {}, {}, 0)

  function WithPending(b: Bucket, tasks: map<string, int>): Bucket {
    b + map task | task in tasks :: Occupant(tasks[task], true)
  }

  predicate Waiting(s: LaneState, task: string) {
    task in s.batch && task !in s.holding && task in s.bucket && s.bucket[task].pending
  }

  predicate Enabled(cap: int, s: LaneState, e: Event) {
    match e
    case Claim(task, _) => HasRoom(s.bucket, cap) && task !in s.batch
    case RegisterBatch(tasks) => s.batch == {} && tasks != map[] && tasks.Keys !! s.bucket.Keys
    case Acquire(task, _) => Waiting(s, task) && s.permits > 0
    case Finish(task) => task in s.holding
    case CancelWaiting(task) => Waiting(s, task)
    case Drain(_) => true
  }

  function Step(cap: int, s: LaneState, e: Event): LaneState {
    if !Enabled(cap, s, e) then s
    else
      match e
      case Claim(task, handle) => s.(bucket := s.bucket[task := Occupant(handle, false)])
      case RegisterBatch(tasks) => LaneState(WithPending(s.bucket, tasks), tasks.Keys, {}, cap)
      case Acquire(task, stopped) =>
        if stopped then s.(bucket := s.bucket - {task})
        else s.(bucket := SlotTables.Promoted(s.bucket, task), holding := s.holding + {task}, permits := s.permits - 1)
      case Finish(task) => s.(bucket := s.bucket - {task}, holding := s.holding - {task}, permits := s.permits + 1)
      case CancelWaiting(task) => s.(bucket := s.bucket - {task})
      case Drain(done) => s.(bucket := Undrained(s.bucket, done))
  }

  function RunFrom(cap: int, s: LaneState, events: seq<Event>): LaneState {
    if events == [] then s
    else Step(cap, RunFrom(cap, s, events[..|events| - 1]), events[|events| - 1])
  }

  function Claimed(s: LaneState): set<string> {
    s.bucket.Keys - s.batch
  }

  function Orphans(s: LaneState): set<string> {
    s.bucket.Keys * s.batch
  }

  function PromotedOrphans(s: LaneState): set<string> {
    set task | task in s.bucket && task in s.batch && !s.bucket[task].pending
  }

  function InFlight(s: LaneState): set<string> {
    set task | task in s.bucket && !s.bucket[task].pending
  }

  // ------------------------------------------------------------------- safety

  ghost predicate Safe(cap: int, s: LaneState) {
    && |Claimed(s)| <= cap
    && (forall task :: task in Claimed(s) ==> !s.bucket[task].pending)
    && PromotedOrphans(s) <= s.holding <= s.batch
    && s.permits >= 0
    && (if s.batch == {} then s.permits == 0 else |s.holding| + s.permits == cap)
  }

  lemma SplitByBatch(s: LaneState)
    ensures |s.bucket| == |Claimed(s)| + |Orphans(s)|
    ensures |InFlight(s)| <= |Claimed(s)| + |PromotedOrphans(s)|
    ensures |PromotedOrphans(s)| <= |Orphans(s)|
    ensures (forall task :: task in Claimed(s) ==> !s.bucket[task].pending) ==>
              |InFlight(s)| == |Claimed(s)| + |PromotedOrphans(s)|
  {
    assert s.bucket.Keys == Claimed(s) + Orphans(s);
    assert InFlight(s) <= Claimed(s) + PromotedOrphans(s);
    SubsetCount(InFlight(s), Claimed(s) + PromotedOrphans(s));
    SubsetCount(PromotedOrphans(s), Orphans(s));
    if forall task :: task in Claimed(s) ==> !s.bucket[task].pending {
      assert InFlight(s) == Claimed(s) + PromotedOrphans(s);
    }
  }

  /** Apart from claims and the registration, a step only takes occupants away, or promotes the one it admits. */
  lemma ShrinkingStep(cap: int, s: LaneState, e: Event)
    requires Enabled(cap, s, e) && !e.Claim? && !e.RegisterBatch?
    ensures var t := Step(cap, s, e);
            && t.batch == s.batch && Claimed(t) <= Claimed(s) && Orphans(t) <= Orphans(s)
            && forall task :: task in t.bucket ==>
                 task in s.bucket
                 && (t.bucket[task].pending <==> s.bucket[task].pending && !(e == Acquire(task, false)))
  {
  }

  lemma ClaimStep(cap: int, s: LaneState, task: string, handle: int)
    requires Enabled(cap, s, Claim(task, handle))
    ensures var t := Step(cap, s, Claim(task, handle));
            && Claimed(t) == Claimed(s) + {task} && Orphans(t) == Orphans(s) && |s.bucket| < cap
            && PromotedOrphans(t) == PromotedOrphans(s)
  {
  }

  lemma RegisterStep(cap: int, s: LaneState, tasks: map<string, int>)
    requires Safe(cap, s) && Enabled(cap, s, RegisterBatch(tasks))
    ensures var t := Step(cap, s, RegisterBatch(tasks));
            && Claimed(t) == Claimed(s) && PromotedOrphans(t) == {} && t.holding == {} && t.batch != {}
            && Safe(cap, t)
  {
  }

  lemma StepIsSafe(cap: int, s: LaneState, e: Event)
    requires cap >= 1 && Safe(cap, s)
    ensures Safe(cap, Step(cap, s, e))
  {
    hide Undrained, SlotTables.Promoted, WithPending;
    if Enabled(cap, s, e) {
      match e {
        case Claim(task, handle) => ClaimIsSafe(cap, s, task, handle);
        case RegisterBatch(tasks) => RegisterStep(cap, s, tasks);
        case _ => ShrinkingIsSafe(cap, s, e);
      }
    }
  }

  lemma ClaimIsSafe(cap: int, s: LaneState, task: string, handle: int)
    requires Safe(cap, s) && Enabled(cap, s, Claim(task, handle))
    ensures Safe(cap, Step(cap, s, Claim(task, handle)))
  {
    SplitByBatch(s);
    ClaimStep(cap, s, task, handle);
  }

  lemma ShrinkingIsSafe(cap: int, s: LaneState, e: Event)
    requires Safe(cap, s) && Enabled(cap, s, e) && !e.Claim? && !e.RegisterBatch?
    ensures Safe(cap, Step(cap, s, e))
  {
    hide Claimed, Orphans;
    var t := Step(cap, s, e);
    ShrinkingStep(cap, s, e);
    SubsetCount(Claimed(t), Claimed(s));
    ShrinkingPermits(cap, s, e);
    ClaimedAreInBucket(s);
    ClaimedAreInBucket(t);
  }

  lemma ClaimedAreInBucket(s: LaneState)
    ensures forall task :: task in Claimed(s) ==> task in s.bucket && task !in s.batch
  {
  }

  lemma ShrinkingPermits(cap: int, s: LaneState, e: Event)
    requires Safe(cap, s) && Enabled(cap, s, e) && !e.Claim? && !e.RegisterBatch?
    ensures var t := Step(cap, s, e);
            && PromotedOrphans(t) <= t.holding <= t.batch
            && t.permits >= 0
            && (if t.batch == {} then t.permits == 0 else |t.holding| + t.permits == cap)
  {
  }

  lemma {:induction false} RunIsSafe(cap: int, s: LaneState, events: seq<Event>)
    requires cap >= 1 && Safe(cap, s)
    ensures Safe(cap, RunFrom(cap, s, events))
  {
    if events != [] {
      RunIsSafe(cap, s, events[..|events| - 1]);
      StepIsSafe(cap, RunFrom(cap, s, events[..|events| - 1]), events[|events| - 1]);
    }
  }

  /**
    In every interleaving the claimed tasks stay within the capacity, the promoted orphans within the
    semaphore, and the two together within twice the capacity.
  */
  lemma LaneBounds(cap: int, events: seq<Event>)
    requires cap >= 1
    ensures var s := RunFrom(cap, IDLE, events);
            |Claimed(s)| <= cap && |PromotedOrphans(s)| <= cap && |InFlight(s)| <= 2 * cap
  {
    assert Claimed(IDLE) == {};
    RunIsSafe(cap, IDLE, events);
    var s := RunFrom(cap, IDLE, events);
    SplitByBatch(s);
    SubsetCount(PromotedOrphans(s), s.holding);
  }

  // ------------------------------------------------------------ exact capacity

  /** The orphans still to come, as many as the semaphore lets in, fit beside the claimed tasks. */
  predicate Fits(cap: int, s: LaneState) {
    |Claimed(s)| + Min(|Orphans(s)|, cap) <= cap
  }

  lemma StepFits(cap: int, s: LaneState, e: Event)
    requires cap >= 1 && Safe(cap, s) && Fits(cap, s) && s.batch != {}
    ensures Fits(cap, Step(cap, s, e)) && Step(cap, s, e).batch == s.batch
  {
    hide Undrained, SlotTables.Promoted, WithPending, Safe;
    if Enabled(cap, s, e) {
      var t := Step(cap, s, e);
      match e {
        case Claim(task, handle) =>
          SplitByBatch(s);
          ClaimStep(cap, s, task, handle);
        case RegisterBatch(_) =>
        case _ =>
          ShrinkingStep(cap, s, e);
          SubsetCount(Claimed(t), Claimed(s));
          SubsetCount(Orphans(t), Orphans(s));
      }
    }
  }

  lemma {:induction false} RunFits(cap: int, s: LaneState, events: seq<Event>)
    requires cap >= 1 && Safe(cap, s) && Fits(cap, s) && s.batch != {}
    ensures Fits(cap, RunFrom(cap, s, events)) && RunFrom(cap, s, events).batch == s.batch
  {
    if events != [] {
      RunFits(cap, s, events[..|events| - 1]);
      RunIsSafe(cap, s, events[..|events| - 1]);
      StepFits(cap, RunFrom(cap, s, events[..|events| - 1]), events[|events| - 1]);
    }
  }

  /** Letting in the given waiting orphans, one after the other. */
  function AcquireAll(tasks: seq<string>): seq<Event> {
    seq(|tasks|, i requires 0 <= i < |tasks| => Acquire(tasks[i], false))
  }

  lemma {:induction false} AcquiredAll(cap: int, s: LaneState, tasks: seq<string>)
    requires |tasks| <= s.permits
    requires forall i :: 0 <= i < |tasks| ==> Waiting(s, tasks[i])
    requires forall i, j :: 0 <= i < j < |tasks| ==> tasks[i] != tasks[j]
    ensures var t := RunFrom(cap, s, AcquireAll(tasks));
            && t.permits == s.permits - |tasks| && t.batch == s.batch && t.bucket.Keys == s.bucket.Keys
            && (forall task :: task in s.bucket ==>
                (t.bucket[task].pending <==> s.bucket[task].pending && task !in tasks))
            && t.holding == s.holding + (set i | 0 <= i < |tasks| :: tasks[i])
  {
    if tasks != [] {
      var n := |tasks| - 1;
      AcquiredAll(cap, s, tasks[..n]);
      assert AcquireAll(tasks)[..n] == AcquireAll(tasks[..n]);
      var before := RunFrom(cap, s, AcquireAll(tasks[..n]));
      assert tasks[n] !in tasks[..n];
      assert Waiting(before, tasks[n]);
    }
  }

  lemma {:induction false} Pick(s: set<string>, k: nat) returns (chosen: seq<string>)
    requires k <= |s|
    ensures |chosen| == k && forall i :: 0 <= i < k ==> chosen[i] in s
    ensures forall i, j :: 0 <= i < j < k ==> chosen[i] != chosen[j]
  {
    if k == 0 {
      chosen := [];
    } else {
      var x :| x in s;
      chosen := Pick(s - {x}, k - 1);
      chosen := chosen + [x];
    }
  }

  /**
    After a batch is registered beside `Claimed` tasks, the capacity is never exceeded exactly when the
    orphans the semaphore admits fit beside them.
  */
  lemma CapacityHoldsExactlyWhenTheBatchFits(cap: int, events: seq<Event>, tasks: map<string, int>)
    requires cap >= 1
    requires Enabled(cap, RunFrom(cap, IDLE, events), RegisterBatch(tasks))
    ensures var s := Step(cap, RunFrom(cap, IDLE, events), RegisterBatch(tasks));
            (forall more :: |InFlight(RunFrom(cap, s, more))| <= cap) <==> Fits(cap, s)
  {
    hide Claimed, Orphans, PromotedOrphans, Step, InFlight;
    NothingClaimedYet(cap);
    var before := RunFrom(cap, IDLE, events);
    RunIsSafe(cap, IDLE, events);
    RegisterStep(cap, before, tasks);
    var s := Step(cap, before, RegisterBatch(tasks));
    if Fits(cap, s) {
      forall more ensures |InFlight(RunFrom(cap, s, more))| <= cap {
        RunFits(cap, s, more);
        RunIsSafe(cap, s, more);
        var t := RunFrom(cap, s, more);
        SplitByBatch(t);
        SubsetCount(PromotedOrphans(t), t.holding);
      }
    } else {
      var more := ExcessIsReachable(cap, s);
    }
  }

  lemma NothingClaimedYet(cap: int)
    requires cap >= 1
    ensures Safe(cap, IDLE) && Claimed(IDLE) == {}
  {
  }

  lemma ExcessIsReachable(cap: int, s: LaneState) returns (more: seq<Event>)
    requires cap >= 1 && Safe(cap, s) && !Fits(cap, s)
    requires s.batch != {} && s.holding == {} && PromotedOrphans(s) == {}
    ensures |InFlight(RunFrom(cap, s, more))| > cap
  {
    var k := Min(|Orphans(s)|, cap);
    var chosen := Pick(Orphans(s), k);
    more := AcquireAll(chosen);
    forall i | 0 <= i < k ensures Waiting(s, chosen[i]) {
      assert chosen[i] !in PromotedOrphans(s);
    }
    AcquiredAll(cap, s, chosen);
    RunIsSafe(cap, s, more);
    var t := RunFrom(cap, s, more);
    SplitByBatch(t);
    assert Claimed(t) == Claimed(s);
    var all := set i | 0 <= i < k :: chosen[i];
    CountDistinct(chosen, all);
    assert all <= PromotedOrphans(t);
    SubsetCount(all, PromotedOrphans(t));
  }

  lemma {:induction false} CountDistinct(chosen: seq<string>, all: set<string>)
    requires forall i, j :: 0 <= i < j < |chosen| ==> chosen[i] != chosen[j]
    requires all == set i | 0 <= i < |chosen| :: chosen[i]
    ensures |all| == |chosen|
  {
    if chosen != [] {
      var n := |chosen| - 1;
      var front := set i | 0 <= i < n :: chosen[..n][i];
      CountDistinct(chosen[..n], front);
      assert all == front + {chosen[n]};
    }
  }

  /** A batch that registers before anything is claimed never drives the lane over its capacity. */
  lemma BatchFirstNeverExceeds(cap: int, tasks: map<string, int>, more: seq<Event>)
    requires cap >= 1 && tasks != map[]
    ensures |InFlight(RunFrom(cap, Step(cap, IDLE, RegisterBatch(tasks)), more))| <= cap
  {
    assert RunFrom(cap, IDLE, []) == IDLE;
    var s := Step(cap, IDLE, RegisterBatch(tasks));
    assert Claimed(s) == {};
    CapacityHoldsExactlyWhenTheBatchFits(cap, [], tasks);
  }

  // ---------------------------------------------------------------- dispatcher

  function Handles(tasks: seq<(string, int)>): map<string, int> {
    if tasks == [] then map[]
    else Handles(tasks[..|tasks| - 1])[tasks[|tasks| - 1].0 := tasks[|tasks| - 1].1]
  }

  lemma WithNothingPending(b: Bucket)
    ensures WithPending(b, map[]) == b
  {
  }

  lemma WithOneMorePending(b: Bucket, tasks: map<string, int>, task: string, handle: int)
    ensures WithPending(b, tasks[task := handle]) == WithPending(b, tasks)[task := Occupant(handle, true)]
  {
  }

  /** All of the batch is registered before control is given up, so no claim sees a half-registered batch. */
  method RegisterPending(table: SlotTable, lane: Lane, tasks: seq<(string, int)>)
    requires table.Valid()
    modifies table
    ensures table.Valid()
    ensures BucketOf(table.slots, lane) == WithPending(BucketOf(old(table.slots), lane), Handles(tasks))
    ensures forall other :: other != lane ==> BucketOf(table.slots, other) == BucketOf(old(table.slots), other)
  {
    hide BucketOf, WithPending;
    WithNothingPending(BucketOf(table.slots, lane));
    for i := 0 to |tasks|
      invariant table.Valid()
      invariant BucketOf(table.slots, lane) == WithPending(BucketOf(old(table.slots), lane), Handles(tasks[..i]))
      invariant forall other :: other != lane ==> BucketOf(table.slots, other) == BucketOf(old(table.slots), other)
    {
      assert tasks[..i + 1][..i] == tasks[..i];
      WithOneMorePending(BucketOf(old(table.slots), lane), Handles(tasks[..i]), tasks[i].0, tasks[i].1);
      table.Register(lane, tasks[i].0, tasks[i].1, true);
    }
    assert tasks[..|tasks|] == tasks;
  }
}
