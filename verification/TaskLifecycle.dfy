/**
  One attempt at a task: the coroutine that processes it, the shielded row updates it launches, and the
  user who may cancel at any moment. A cancelled await abandons its update, which still runs.
*/
module TaskLifecycle {
  import opened Prelude

  // ---------------------------------------------------------------------- row

  datatype Row = Queued | Running | Cancelling | Succeeded | Failed | Cancelled

  predicate Terminal(row: Row) {
    row.Succeeded? || row.Failed? || row.Cancelled?
  }

  datatype Update = ToSucceeded | ToFailed | ToQueued | ToCancelled

  /** The guard in the update's WHERE clause. */
  predicate Accepts(u: Update, row: Row) {
    if u.ToCancelled? then row.Queued? || row.Cancelling? || row.Running? else row.Running?
  }

  function Target(u: Update): Row {
    match u
    case ToSucceeded => Succeeded
    case ToFailed => Failed
    case ToQueued => Queued
    case ToCancelled => Cancelled
  }

  function Updated(u: Update, row: Row): Row {
    if Accepts(u, row) then Target(u) else row
  }

  function RowsAffected(u: Update, row: Row): nat {
    if Accepts(u, row) then 1 else 0
  }

  // ---------------------------------------------------------------- coroutine

  /** A launched update, with its row count once it has run. */
  datatype Write = Write(update: Update, rows: Option<nat>)

  datatype Point =
    | Starting
    | Executing
    | PersistingProvider
    | Awaiting(reraise: bool)
    | Done(cancelled: bool)

  /** `Awaiting` waits for the last write launched; `compensations` counts the undo of activated media. */
  datatype Attempt = Attempt(
    row: Row, point: Point, writes: seq<Write>, compensable: bool, compensations: nat, drained: bool)

  datatype Event =
    | Start
    | ExecutorReturns(compensable: bool)
    | ExecutorFails
    | ProviderDrifts
    | ProviderPersisted
    | WriteRuns(k: nat)
    | Resume
    | CancelCoroutine
    | UserCancels
    | Drain

  function Launch(a: Attempt, u: Update, reraise: bool): Attempt {
    a.(point := Awaiting(reraise), writes := a.writes + [Write(u, None)])
  }

  function Awaited(a: Attempt): Write
    requires a.writes != []
  {
    a.writes[|a.writes| - 1]
  }

  predicate Enabled(a: Attempt, e: Event) {
    match e
    case Start => a.point.Starting?
    case ExecutorReturns(_) => a.point.Executing?
    case ExecutorFails => a.point.Executing?
    case ProviderDrifts => a.point.Executing?
    case ProviderPersisted => a.point.PersistingProvider?
    case WriteRuns(k) => k < |a.writes| && a.writes[k].rows.None?
    case Resume => a.point.Awaiting? && a.writes != [] && Awaited(a).rows.Some?
    case CancelCoroutine => !a.point.Done?
    case UserCancels => a.row.Queued? || a.row.Running?
    case Drain => a.point.Done? && !a.drained
  }

  /** What follows the await of an update that affected `rows` rows. */
  function AfterWrite(a: Attempt, u: Update, rows: nat, reraise: bool): Attempt {
    match u
    case ToCancelled => a.(point := Done(reraise))
    case ToQueued => if rows > 0 then a.(point := Done(false)) else Launch(a, ToFailed, false)
    case ToSucceeded => if rows > 0 then a.(point := Done(false)) else Launch(a, ToCancelled, false)
    case ToFailed => if rows > 0 then a.(point := Done(false)) else Launch(a, ToCancelled, false)
  }

  /** Where a cancellation lands: only execution and the success write are followed by a cancel write. */
  function AfterCancel(a: Attempt): Attempt {
    match a.point
    case Executing => Launch(a, ToCancelled, true)
    case Awaiting(_) =>
      if a.writes != [] && Awaited(a).update.ToSucceeded? then Launch(a, ToCancelled, true)
      else a.(point := Done(true))
    case _ => a.(point := Done(true))
  }

  /** An update runs; a success that came too late undoes what it had activated. */
  function AfterRun(a: Attempt, k: nat): Attempt
    requires k < |a.writes|
  {
    var u := a.writes[k].update;
    var rows := RowsAffected(u, a.row);
    var undo := if u.ToSucceeded? && rows == 0 && a.compensable then 1 else 0;
    a.(row := Updated(u, a.row), writes := a.writes[k := Write(u, Some(rows))], compensations := a.compensations + undo)
  }

  function Step(a: Attempt, e: Event): Attempt {
    if !Enabled(a, e) then a
    else
      match e
      case Start => a.(point := Executing)
      case ExecutorReturns(compensable) => Launch(a.(compensable := compensable), ToSucceeded, false)
      case ExecutorFails => Launch(a, ToFailed, false)
      case ProviderDrifts => a.(point := PersistingProvider)
      case ProviderPersisted => Launch(a, ToQueued, false)
      case WriteRuns(k) => AfterRun(a, k)
      case Resume => AfterWrite(a, Awaited(a).update, Awaited(a).rows.value, a.point.reraise)
      case CancelCoroutine => AfterCancel(a)
      case UserCancels => a.(row := if a.row.Queued? then Cancelled else Cancelling)
      case Drain => a.(drained := true, row := if a.point.cancelled then Updated(ToCancelled, a.row) else a.row)
  }

  const CLAIMED := Attempt(Running, Starting, [], false, 0, false)

  function Run(events: seq<Event>): Attempt {
    if events == [] then CLAIMED else Step(Run(events[..|events| - 1]), events[|events| - 1])
  }

  // ------------------------------------------------------------------- safety

  /** The row is out of this attempt's hands. */
  predicate Settled(row: Row) {
    !row.Running? && !row.Cancelling?
  }

  /** The update was run, and the row shows it: it took effect, or the row had already left `running`. */
  predicate Reflected(w: Write, row: Row) {
    w.rows.Some? ==>
      && (w.rows.value > 0 || w.update.ToCancelled? ==> Settled(row))
      && !row.Running?
  }

  ghost predicate AttemptOk(a: Attempt) {
    && (forall k :: 0 <= k < |a.writes| ==> Reflected(a.writes[k], a.row))
    && (a.point.Awaiting? ==> a.writes != [])
    && (a.point == Done(false) ==> Settled(a.row))
    && (a.drained ==> a.point.Done? && Settled(a.row))
  }

  /** At most one success write is ever launched, and before any other. */
  ghost predicate SuccessOnce(a: Attempt) {
    && (a.point.Starting? || a.point.Executing? || a.point.PersistingProvider? ==> a.writes == [])
    && (forall k :: 1 <= k < |a.writes| ==> !a.writes[k].update.ToSucceeded?)
    && (a.row.Succeeded? ==> a.writes != [] && a.writes[0] == Write(ToSucceeded, Some(1)))
    && (forall k :: 0 <= k < |a.writes| && a.writes[k].rows.Some? ==>
          a.writes[k].update.ToSucceeded? && a.writes[k].rows.value > 0 ==> a.row.Succeeded?)
    && a.compensations ==
         (if a.writes != [] && a.compensable && a.writes[0] == Write(ToSucceeded, Some(0)) then 1 else 0)
    && (a.compensable ==> a.writes != [] && a.writes[0].update.ToSucceeded?)
  }

  lemma StepKeepsAttemptOk(a: Attempt, e: Event)
    requires AttemptOk(a)
    ensures AttemptOk(Step(a, e))
    ensures Settled(a.row) ==> Settled(Step(a, e).row)
  {
  }

  lemma RunningWriteKeepsSuccessOnce(a: Attempt, k: nat)
    requires SuccessOnce(a) && k < |a.writes| && a.writes[k].rows.None?
    ensures SuccessOnce(AfterRun(a, k))
  {
  }

  lemma StepKeepsSuccessOnce(a: Attempt, e: Event)
    requires SuccessOnce(a)
    ensures SuccessOnce(Step(a, e))
  {
    hide AfterRun;
    if e.WriteRuns? && Enabled(a, e) {
      RunningWriteKeepsSuccessOnce(a, e.k);
    }
  }

  lemma {:induction false} EveryRunIsOk(events: seq<Event>)
    ensures AttemptOk(Run(events)) && SuccessOnce(Run(events))
  {
    if events != [] {
      EveryRunIsOk(events[..|events| - 1]);
      StepKeepsAttemptOk(Run(events[..|events| - 1]), events[|events| - 1]);
      StepKeepsSuccessOnce(Run(events[..|events| - 1]), events[|events| - 1]);
    }
  }

  /** Once the coroutine has ended and been drained, the row is succeeded, failed, cancelled or back in the queue. */
  lemma DrainedTaskIsSettled(events: seq<Event>)
    requires Run(events).drained
    ensures var row := Run(events).row; row.Succeeded? || row.Failed? || row.Cancelled? || row.Queued?
  {
    EveryRunIsOk(events);
  }

  /** No update, late or not, changes a terminal row. */
  lemma {:induction false} TerminalRowsStay(events: seq<Event>, more: seq<Event>)
    requires Terminal(Run(events).row)
    ensures Run(events + more).row == Run(events).row
    decreases |more|
  {
    if more == [] {
      assert events + more == events;
    } else {
      var n := |more| - 1;
      TerminalRowsStay(events, more[..n]);
      assert (events + more)[..|events + more| - 1] == events + more[..n];
      assert (events + more)[|events + more| - 1] == more[n];
    }
  }

  /** The success write of an attempt whose executor has returned. */
  ghost predicate SuccessAttempted(a: Attempt) {
    a.writes != [] && a.writes[0].update.ToSucceeded?
  }

  /** Activated media are undone at most once, and exactly when the success write found the row no longer running. */
  lemma CompensationFollowsTheRow(events: seq<Event>)
    ensures var a := Run(events);
            && a.compensations <= 1
            && (a.compensations == 1 <==> a.compensable && SuccessAttempted(a) && a.writes[0].rows == Some(0))
            && (a.compensable && SuccessAttempted(a) && a.writes[0].rows.Some? ==>
                  (a.compensations == 0 <==> a.row.Succeeded?))
  {
    EveryRunIsOk(events);
    var a := Run(events);
    if SuccessAttempted(a) && a.writes[0].rows.Some? {
      assert a.writes[0] == Write(ToSucceeded, a.writes[0].rows);
      RowCountsAreZeroOrOne(events);
    }
  }

  lemma {:induction false} RowCountsAreZeroOrOne(events: seq<Event>)
    ensures forall k :: 0 <= k < |Run(events).writes| && Run(events).writes[k].rows.Some? ==>
              Run(events).writes[k].rows.value <= 1
  {
    if events != [] {
      RowCountsAreZeroOrOne(events[..|events| - 1]);
    }
  }

  /** Every coroutine that has ended can be drained, so a finished task never stays running or cancelling. */
  lemma DrainSettles(events: seq<Event>)
    requires Run(events).point.Done?
    ensures Settled(Run(events + [Drain]).row)
  {
    EveryRunIsOk(events);
    EveryRunIsOk(events + [Drain]);
    assert (events + [Drain])[..|events|] == events;
  }

  // ---------------------------------------------------------------- imperative

  /** A result whose activated media can be undone, once. */
  class CompensableResult {
    var compensated: bool
    var undone: nat

    constructor ()
      ensures !compensated && undone == 0
    {
      compensated, undone := false, 0;
    }

    method CompensateCancelled()
      modifies this
      ensures compensated
      ensures undone == old(undone) + (if old(compensated) then 0 else 1)
    {
      if compensated {
        return;
      }
      compensated := true;
      undone := undone + 1;
    }
  }

  /** The task's row, changed only through guarded updates. */
  class TaskRow {
    var row: Row

    constructor ()
      ensures row == Running
    {
      row := Running;
    }

    method Write(u: Update) returns (rows: nat)
      modifies this
      ensures row == Updated(u, old(row)) && rows == RowsAffected(u, old(row))
    {
      match u {
        case ToCancelled =>
          if row == Queued || row == Cancelling || row == Running {
            row := Cancelled;
            return 1;
          }
        case _ =>
          if row == Running {
            row := Target(u);
            return 1;
          }
      }
      rows := 0;
    }

    /** A success that affects no row undoes its media before the count is returned. */
    method MarkSucceeded(result: CompensableResult?) returns (rows: nat)
      modifies this, result
      ensures row == Updated(ToSucceeded, old(row)) && rows == RowsAffected(ToSucceeded, old(row))
      ensures result != null ==>
                result.undone == old(result.undone) + (if rows == 0 && !old(result.compensated) then 1 else 0)
    {
      rows := Write(ToSucceeded);
      if rows == 0 && result != null {
        result.CompensateCancelled();
      }
    }

    /**
      The ending of an attempt that nobody cancels in flight: a write that affects no row is followed by a
      cancel write.
    */
    method Finish(u: Update, result: CompensableResult?)
      requires !u.ToCancelled?
      modifies this, result
      ensures old(row) == Running ==> row == Target(u)
      ensures old(row) == Cancelling ==> row == Cancelled
      ensures Settled(row)
      ensures result != null && u.ToSucceeded? && !old(result.compensated) ==>
                (result.undone > old(result.undone) <==> old(row) != Running)
    {
      var rows;
      if u.ToSucceeded? {
        rows := MarkSucceeded(result);
      } else {
        rows := Write(u);
        if u.ToQueued? && rows == 0 {
          rows := Write(ToFailed);
        }
      }
      if rows == 0 {
        rows := Write(ToCancelled);
      }
    }
  }
}
