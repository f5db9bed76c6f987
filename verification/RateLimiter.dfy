/**
  The sliding-window limiter: a pruned log of recent grants decides for all acquirers of one model,
  blocking and asynchronous ones alike. Each turn under the lock is one step; time is what the clock reads.
*/
module RateLimiting {
  import opened Prelude

  const WINDOW: real := 60.0
  const SLACK: real := 0.1

  /** One pass through an acquire loop, with the clock readings it takes in order. */
  datatype Turn = SyncTurn(now: real, gapReading: real, grantReading: real) | AsyncTurn(now: real)

  datatype Decision = Granted(at: real) | Wait(seconds: real)

  // ---------------------------------------------------------------- one turn

  /** `while log and now - log[0] > 60: log.popleft()` */
  function Prune(log: seq<real>, now: real): seq<real> {
    if log != [] && now - log[0] > WINDOW then Prune(log[1..], now) else log
  }

  function LimitWait(log: seq<real>, now: real): real
    requires log != []
  {
    WINDOW - (now - log[0]) + SLACK
  }

  /** What a turn decides on a pruned log. */
  function Decide(log: seq<real>, limit: int, gap: real, turn: Turn): Decision
    requires limit >= 1
  {
    match turn
    case SyncTurn(now, gapReading, grantReading) =>
      if log != [] && gapReading - log[|log| - 1] < gap then Wait(gap - (gapReading - log[|log| - 1]))
      else if |log| < limit then Granted(grantReading)
      else Wait(LimitWait(log, now))
    case AsyncTurn(now) =>
      var gapWait := if log != [] && now - log[|log| - 1] < gap then gap - (now - log[|log| - 1]) else 0.0;
      var wait := if |log| >= limit && LimitWait(log, now) > gapWait then LimitWait(log, now) else gapWait;
      if wait == 0.0 && |log| < limit then Granted(now)
      else if wait > 0.0 then Wait(wait)
      else Wait(SLACK)
  }

  function Appended(log: seq<real>, d: Decision): seq<real> {
    if d.Granted? then log + [d.at] else log
  }

  // --------------------------------------------------------------------- runs

  /** The log kept for a model, and every grant it ever made. */
  datatype Track = Track(log: seq<real>, history: seq<real>)

  function Step(t: Track, limit: int, gap: real, turn: Turn): Track
    requires limit >= 1
  {
    var log := Prune(t.log, turn.now);
    var d := Decide(log, limit, gap, turn);
    Track(Appended(log, d), Appended(t.history, d))
  }

  function Run(limit: int, gap: real, turns: seq<Turn>): Track
    requires limit >= 1
  {
    if turns == [] then Track([], [])
    else Step(Run(limit, gap, turns[..|turns| - 1]), limit, gap, turns[|turns| - 1])
  }

  function LastReading(turn: Turn): real {
    match turn
    case SyncTurn(_, _, grantReading) => grantReading
    case AsyncTurn(now) => now
  }

  /** Within every turn and from turn to turn the clock never goes back. */
  predicate ClockNeverGoesBack(turns: seq<Turn>)
    decreases |turns|
  {
    turns == [] ||
    (var n := |turns| - 1;
     && ClockNeverGoesBack(turns[..n])
     && (turns[n].SyncTurn? ==> turns[n].now <= turns[n].gapReading <= turns[n].grantReading)
     && (n > 0 ==> LastReading(turns[n - 1]) <= turns[n].now))
  }

  // ------------------------------------------------- the log and the history

  predicate Sorted(ts: seq<real>) {
    forall i, j :: 0 <= i < j < |ts| ==> ts[i] <= ts[j]
  }

  /** The grants of the last sixty seconds, taken from the full history. */
  function Recent(history: seq<real>, now: real): seq<real> {
    if history == [] then []
    else
      var n := |history| - 1;
      Recent(history[..n], now) + (if now - history[n] <= WINDOW then [history[n]] else [])
  }

  lemma NoneRecent(now: real)
    ensures Recent([], now) == []
  {
  }

  lemma {:induction false} RecentDropsTheOldest(h: seq<real>, now: real)
    requires h != []
    ensures Recent(h, now) == (if now - h[0] <= WINDOW then [h[0]] else []) + Recent(h[1..], now)
    decreases |h|
  {
    hide Recent;
    var n := |h| - 1;
    RecentSnoc(h[..n], h[n], now);
    assert h[..n] + [h[n]] == h;
    if n == 0 {
      NoneRecent(now);
      assert h[..0] == [] && h[1..] == [];
    } else {
      RecentDropsTheOldest(h[..n], now);
      RecentSnoc(h[1..][..n - 1], h[n], now);
      assert h[..n][1..] == h[1..][..n - 1];
      assert h[1..][..n - 1] + [h[n]] == h[1..];
    }
  }

  lemma {:induction false} RecentOfRecents(h: seq<real>, now: real)
    requires forall i :: 0 <= i < |h| ==> now - h[i] <= WINDOW
    ensures Recent(h, now) == h
  {
    if h != [] {
      RecentOfRecents(h[..|h| - 1], now);
      assert h == h[..|h| - 1] + [h[|h| - 1]];
    }
  }

  /** On a sorted list, dropping from the front is filtering. */
  lemma {:induction false} PruneIsRecent(h: seq<real>, now: real)
    requires Sorted(h)
    ensures Prune(h, now) == Recent(h, now)
  {
    if h != [] && now - h[0] > WINDOW {
      RecentDropsTheOldest(h, now);
      PruneIsRecent(h[1..], now);
    } else {
      RecentOfRecents(h, now);
    }
  }

  lemma {:induction false} RecentIsSorted(h: seq<real>, now: real)
    requires Sorted(h)
    ensures Sorted(Recent(h, now))
    ensures forall t :: t in Recent(h, now) ==> t in h
  {
    if h != [] {
      RecentIsSorted(h[..|h| - 1], now);
      var front := Recent(h[..|h| - 1], now);
      forall i | 0 <= i < |front| ensures front[i] <= h[|h| - 1] {
        assert front[i] in front;
      }
    }
  }

  lemma RecentSnoc(h: seq<real>, last: real, now: real)
    ensures Recent(h + [last], now) == if now - last <= WINDOW then Recent(h, now) + [last] else Recent(h, now)
  {
    assert (h + [last])[..|h|] == h;
  }

  lemma {:induction false} RecentTwice(h: seq<real>, prior: real, now: real)
    requires prior <= now
    ensures Recent(Recent(h, prior), now) == Recent(h, now)
  {
    if h != [] {
      hide Recent;
      var front, last := h[..|h| - 1], h[|h| - 1];
      assert h == front + [last];
      RecentTwice(front, prior, now);
      RecentSnoc(front, last, prior);
      RecentSnoc(front, last, now);
      RecentSnoc(Recent(front, prior), last, now);
    }
  }

  /** The pruned log of the first turns is exactly what the full history holds of the last sixty seconds. */
  lemma {:induction false} LogIsTheRecentHistory(limit: int, gap: real, turns: seq<Turn>)
    requires limit >= 1 && ClockNeverGoesBack(turns) && turns != []
    ensures var t := Run(limit, gap, turns);
            && t.log == Recent(t.history, turns[|turns| - 1].now)
            && Sorted(t.history)
            && forall g :: g in t.history ==> g <= LastReading(turns[|turns| - 1])
    decreases |turns|
  {
    var n := |turns| - 1;
    var turn := turns[n];
    var before := Run(limit, gap, turns[..n]);
    if n > 0 {
      LogIsTheRecentHistory(limit, gap, turns[..n]);
      PruneOfRecent(before.history, turns[n - 1].now, turn.now);
    }
    StepKeepsRecent(before, limit, gap, turn);
  }

  lemma PruneOfRecent(h: seq<real>, prior: real, now: real)
    requires Sorted(h) && prior <= now
    ensures Prune(Recent(h, prior), now) == Recent(h, now)
  {
    RecentIsSorted(h, prior);
    PruneIsRecent(Recent(h, prior), now);
    RecentTwice(h, prior, now);
  }

  lemma LaterGrantKeepsOrder(h: seq<real>, now: real, at: real)
    requires Sorted(h) && now <= at && forall g :: g in h ==> g <= now
    ensures Sorted(h + [at]) && forall g :: g in h + [at] ==> g <= at
  {
    assert forall i :: 0 <= i < |h| ==> h[i] in h;
  }

  lemma StepKeepsRecent(t: Track, limit: int, gap: real, turn: Turn)
    requires limit >= 1
    requires turn.SyncTurn? ==> turn.now <= turn.gapReading <= turn.grantReading
    requires Sorted(t.history) && forall g :: g in t.history ==> g <= turn.now
    requires Prune(t.log, turn.now) == Recent(t.history, turn.now)
    ensures var after := Step(t, limit, gap, turn);
            && after.log == Recent(after.history, turn.now)
            && Sorted(after.history)
            && forall g :: g in after.history ==> g <= LastReading(turn)
  {
    hide Recent, Prune;
    var log := Recent(t.history, turn.now);
    var d := Decide(log, limit, gap, turn);
    if d.Granted? {
      RecentSnoc(t.history, d.at, turn.now);
      LaterGrantKeepsOrder(t.history, turn.now, d.at);
    }
  }

  /** A turn decides on the pruned log as it would on the full history. */
  lemma PrunedLogDecidesAsTheHistory(limit: int, gap: real, turns: seq<Turn>, turn: Turn)
    requires limit >= 1 && ClockNeverGoesBack(turns + [turn])
    ensures var t := Run(limit, gap, turns);
            Decide(Prune(t.log, turn.now), limit, gap, turn) == Decide(Recent(t.history, turn.now), limit, gap, turn)
  {
    var all := turns + [turn];
    assert all[..|turns|] == turns;
    if turns != [] {
      LogIsTheRecentHistory(limit, gap, turns);
      var t := Run(limit, gap, turns);
      var prior := turns[|turns| - 1].now;
      PruneOfRecent(t.history, prior, turn.now);
    }
  }

  // ------------------------------------------------------------------- safety

  lemma {:induction false} NothingRecent(h: seq<real>, now: real)
    requires forall i :: 0 <= i < |h| ==> now - h[i] > WINDOW
    ensures Recent(h, now) == []
  {
    if h != [] {
      NothingRecent(h[..|h| - 1], now);
    }
  }

  /** What is not among the recent grants is more than sixty seconds old. */
  lemma {:induction false} RecentIsASuffix(h: seq<real>, now: real) returns (k: nat)
    requires Sorted(h)
    ensures k <= |h| && Recent(h, now) == h[k..]
    ensures forall i :: 0 <= i < k ==> now - h[i] > WINDOW
  {
    hide Recent;
    if h == [] || now - h[|h| - 1] > WINDOW {
      NothingRecent(h, now);
      k := |h|;
    } else {
      var n := |h| - 1;
      k := RecentIsASuffix(h[..n], now);
      RecentSnoc(h[..n], h[n], now);
      assert h[..n] + [h[n]] == h && h[k..] == h[..n][k..] + [h[n]];
    }
  }

  /**
    A grant is later by more than sixty seconds than the one `limit` before it, and keeps its distance from the
    last.
  */
  ghost predicate Spaced(h: seq<real>, limit: int, gap: real) {
    && Sorted(h)
    && (forall i, j :: 0 <= i < j < |h| && j - i >= limit ==> h[j] - h[i] > WINDOW)
    && (forall i, j :: 0 <= i < j < |h| ==> h[j] - h[i] >= gap || h[j] - h[i] > WINDOW)
  }

  lemma NothingIsSpaced(limit: int, gap: real)
    requires limit >= 1
    ensures Spaced(Run(limit, gap, []).history, limit, gap)
  {
  }

  lemma ClockParts(turns: seq<Turn>)
    requires ClockNeverGoesBack(turns) && turns != []
    ensures var n := |turns| - 1;
            && ClockNeverGoesBack(turns[..n])
            && (turns[n].SyncTurn? ==> turns[n].now <= turns[n].gapReading <= turns[n].grantReading)
  {
  }

  /** One more turn, judged on the full history. */
  lemma RunOneMore(limit: int, gap: real, turns: seq<Turn>)
    requires limit >= 1 && ClockNeverGoesBack(turns) && turns != []
    ensures var n := |turns| - 1;
            var h := Run(limit, gap, turns[..n]).history;
            && Run(limit, gap, turns).history == Appended(h, Decide(Recent(h, turns[n].now), limit, gap, turns[n]))
            && Sorted(Run(limit, gap, turns).history)
  {
    hide Prune, Decide, Recent, Sorted, ClockNeverGoesBack;
    var n := |turns| - 1;
    ClockParts(turns);
    assert turns[..n] + [turns[n]] == turns;
    PrunedLogDecidesAsTheHistory(limit, gap, turns[..n], turns[n]);
    LogIsTheRecentHistory(limit, gap, turns);
  }

  /** Every interleaving of acquirers keeps all grants spaced. */
  lemma {:induction false} GrantsAreSpaced(limit: int, gap: real, turns: seq<Turn>)
    requires limit >= 1 && ClockNeverGoesBack(turns)
    ensures Spaced(Run(limit, gap, turns).history, limit, gap)
    decreases |turns|
  {
    hide Run, Decide, Recent, Spaced, Sorted, ClockNeverGoesBack;
    if turns == [] {
      NothingIsSpaced(limit, gap);
    } else {
      var n := |turns| - 1;
      ClockParts(turns);
      GrantsAreSpaced(limit, gap, turns[..n]);
      RunOneMore(limit, gap, turns);
      var h := Run(limit, gap, turns[..n]).history;
      var d := Decide(Recent(h, turns[n].now), limit, gap, turns[n]);
      if d.Granted? {
        GrantIsSpaced(h, limit, gap, turns[n]);
        SpacedSnoc(h, d.at, limit, gap);
      }
    }
  }

  lemma SpacedSnoc(h: seq<real>, at: real, limit: int, gap: real)
    requires Spaced(h, limit, gap) && Sorted(h + [at])
    requires forall i :: 0 <= i < |h| && |h| - i >= limit ==> at - h[i] > WINDOW
    requires forall i :: 0 <= i < |h| ==> at - h[i] >= gap || at - h[i] > WINDOW
    ensures Spaced(h + [at], limit, gap)
  {
  }

  /** A grant is made only below the limit, not before the turn, and at a distance from the last of the log. */
  lemma GrantMeaning(log: seq<real>, limit: int, gap: real, turn: Turn)
    requires limit >= 1 && Decide(log, limit, gap, turn).Granted?
    requires turn.SyncTurn? ==> turn.now <= turn.gapReading <= turn.grantReading
    ensures var at := Decide(log, limit, gap, turn).at;
            |log| < limit && at >= turn.now && (log != [] ==> at - log[|log| - 1] >= gap)
  {
  }

  /** The new grant against each earlier one. */
  lemma GrantIsSpaced(h: seq<real>, limit: int, gap: real, turn: Turn)
    requires limit >= 1 && Spaced(h, limit, gap)
    requires turn.SyncTurn? ==> turn.now <= turn.gapReading <= turn.grantReading
    requires Decide(Recent(h, turn.now), limit, gap, turn).Granted?
    ensures var at := Decide(Recent(h, turn.now), limit, gap, turn).at;
            && (forall i :: 0 <= i < |h| && |h| - i >= limit ==> at - h[i] > WINDOW)
            && (forall i :: 0 <= i < |h| ==> at - h[i] >= gap || at - h[i] > WINDOW)
  {
    assert Sorted(h);
    hide Decide, Recent, Spaced;
    var k := RecentIsASuffix(h, turn.now);
    var log := Recent(h, turn.now);
    var at := Decide(log, limit, gap, turn).at;
    GrantMeaning(log, limit, gap, turn);
    forall i | 0 <= i < |h| && |h| - i >= limit ensures at - h[i] > WINDOW {
      assert i < k;
    }
    forall i | 0 <= i < |h| ensures at - h[i] >= gap || at - h[i] > WINDOW {
      if i >= k {
        assert log[|log| - 1] == h[|h| - 1];
        LastIsLargest(h, i);
      }
    }
  }

  lemma LastIsLargest(h: seq<real>, i: nat)
    requires Sorted(h) && i < |h|
    ensures h[i] <= h[|h| - 1]
  {
  }

  lemma {:induction false} WithinSpan(s: set<int>, low: int, k: nat)
    requires forall i :: i in s ==> low <= i < low + k
    ensures |s| <= k
    decreases k
  {
    if k == 0 {
      NonEmptyHasElement(s);
    } else {
      WithinSpan(s - {low + k - 1}, low, k - 1);
      assert s <= s - {low + k - 1} + {low + k - 1};
      assert |s| <= |s - {low + k - 1}| + 1;
    }
  }

  /** No closed window of sixty seconds, wherever it starts, holds more than `limit` grants. */
  lemma NoWindowExceedsTheLimit(limit: int, gap: real, turns: seq<Turn>, start: real)
    requires limit >= 1 && ClockNeverGoesBack(turns)
    ensures var h := Run(limit, gap, turns).history;
            |set i | 0 <= i < |h| && start <= h[i] <= start + WINDOW| <= limit
  {
    GrantsAreSpaced(limit, gap, turns);
    var h := Run(limit, gap, turns).history;
    var inside := set i | 0 <= i < |h| && start <= h[i] <= start + WINDOW;
    if inside != {} {
      LeastExists(inside);
      var first :| first in inside && forall i :: i in inside ==> first <= i;
      forall i | i in inside ensures first <= i < first + limit {
        assert h[i] - h[first] <= WINDOW;
      }
      WithinSpan(inside, first, limit);
    }
  }

  ghost predicate KeepsGap(h: seq<real>, gap: real) {
    forall i :: 0 <= i < |h| - 1 ==> h[i + 1] - h[i] >= gap
  }

  ghost predicate EveryRunKeepsGap(limit: int, gap: real)
    requires limit >= 1
  {
    forall turns :: ClockNeverGoesBack(turns) ==> KeepsGap(Run(limit, gap, turns).history, gap)
  }

  /**
    Consecutive grants keep the request gap in every run exactly when the gap is at most sixty seconds:
    pruning forgets any grant older than that.
  */
  lemma GapHoldsExactlyUpToTheWindow(limit: int, gap: real)
    requires limit >= 1
    ensures gap <= WINDOW <==> EveryRunKeepsGap(limit, gap)
  {
    if gap <= WINDOW {
      forall turns | ClockNeverGoesBack(turns) ensures KeepsGap(Run(limit, gap, turns).history, gap) {
        GrantsAreSpaced(limit, gap, turns);
      }
    } else {
      var turns := ForgottenGrant(limit, gap);
      assert ClockNeverGoesBack(turns) && !KeepsGap(Run(limit, gap, turns).history, gap);
    }
  }

  /** Two grants between sixty seconds and the gap apart: the first is forgotten before the second is judged. */
  lemma ForgottenGrant(limit: int, gap: real) returns (turns: seq<Turn>)
    requires limit >= 1 && gap > WINDOW
    ensures ClockNeverGoesBack(turns) && !KeepsGap(Run(limit, gap, turns).history, gap)
  {
    var later := (gap + WINDOW) / 2.0;
    turns := [AsyncTurn(0.0), AsyncTurn(later)];
    assert turns[..1] == [AsyncTurn(0.0)] && turns[..1][..0] == [];
    assert ClockNeverGoesBack(turns[..1]);
    assert Run(limit, gap, turns[..1]) == Step(Track([], []), limit, gap, AsyncTurn(0.0)) == Track([0.0], [0.0]);
    assert Prune([0.0], later) == [];
    assert Run(limit, gap, turns) == Track([later], [0.0, later]);
    var h := [0.0, later];
    assert h[0 + 1] - h[0] < gap;
  }

  // ----------------------------------------------------------------- progress

  lemma {:induction false} LogNeverExceedsTheLimit(limit: int, gap: real, turns: seq<Turn>)
    requires limit >= 1
    ensures |Run(limit, gap, turns).log| <= limit
    decreases |turns|
  {
    if turns != [] {
      LogNeverExceedsTheLimit(limit, gap, turns[..|turns| - 1]);
      PruneShortens(Run(limit, gap, turns[..|turns| - 1]).log, turns[|turns| - 1].now);
    }
  }

  lemma {:induction false} PruneShortens(log: seq<real>, now: real)
    ensures |Prune(log, now)| <= |log|
    ensures log != [] && now - log[0] > WINDOW ==> |Prune(log, now)| < |log|
    ensures Prune(log, now) != [] ==> Prune(log, now)[|Prune(log, now)| - 1] == log[|log| - 1]
  {
    if log != [] && now - log[0] > WINDOW {
      PruneShortens(log[1..], now);
    }
  }

  /** The wait an asynchronous acquirer is told is enough: if nobody comes between, its next turn is granted. */
  lemma AsyncWaitSuffices(limit: int, gap: real, turns: seq<Turn>, now: real, later: real)
    requires limit >= 1
    requires var log := Prune(Run(limit, gap, turns).log, now);
             var d := Decide(log, limit, gap, AsyncTurn(now));
             d.Wait? && later >= now + d.seconds
    ensures var log := Prune(Run(limit, gap, turns + [AsyncTurn(now)]).log, later);
            Decide(log, limit, gap, AsyncTurn(later)) == Granted(later)
  {
    hide Decide, Prune, Run;
    var before := Run(limit, gap, turns).log;
    LogNeverExceedsTheLimit(limit, gap, turns);
    PruneShortens(before, now);
    PrunedIsRecent(before, now);
    LogAfterWaiting(limit, gap, turns, AsyncTurn(now));
    PruneShortens(Prune(before, now), later);
    GrantedAfterTheWait(Prune(before, now), Prune(Prune(before, now), later), limit, gap, now, later);
  }

  lemma LogAfterWaiting(limit: int, gap: real, turns: seq<Turn>, turn: Turn)
    requires limit >= 1 && Decide(Prune(Run(limit, gap, turns).log, turn.now), limit, gap, turn).Wait?
    ensures Run(limit, gap, turns + [turn]).log == Prune(Run(limit, gap, turns).log, turn.now)
  {
    hide Decide, Prune;
    assert (turns + [turn])[..|turns|] == turns;
  }

  /** `left` is what is left of a pruned log after waiting. */
  lemma GrantedAfterTheWait(log: seq<real>, left: seq<real>, limit: int, gap: real, now: real, later: real)
    requires limit >= 1 && |log| <= limit && |left| <= |log|
    requires log != [] ==> now - log[0] <= WINDOW && (later - log[0] > WINDOW ==> |left| < |log|)
    requires left != [] ==> left[|left| - 1] == log[|log| - 1]
    requires Decide(log, limit, gap, AsyncTurn(now)).Wait?
    requires later >= now + Decide(log, limit, gap, AsyncTurn(now)).seconds
    ensures Decide(left, limit, gap, AsyncTurn(later)) == Granted(later)
  {
  }

  lemma {:induction false} PrunedIsRecent(log: seq<real>, now: real)
    ensures Prune(log, now) != [] ==> now - Prune(log, now)[0] <= WINDOW
  {
    if log != [] && now - log[0] > WINDOW {
      PrunedIsRecent(log[1..], now);
    }
  }

  // ---------------------------------------------------------------- imperative

  /** The limiter, with one log per model. */
  class RateLimiter {
    const limits: map<string, int>
    const requestGap: real
    var requestLogs: map<string, seq<real>>

    constructor (limits: map<string, int>, requestGap: real)
      ensures this.limits == limits && this.requestGap == requestGap && requestLogs == map[]
    {
      this.limits, this.requestGap, requestLogs := limits, requestGap, map[];
    }

    predicate Limits(model: string) {
      model in limits && limits[model] >= 1
    }

    function LogOf(model: string): seq<real>
      reads this
    {
      if model in requestLogs then requestLogs[model] else []
    }

    method PruneLog(model: string, now: real)
      requires model in requestLogs
      modifies this
      ensures requestLogs == old(requestLogs)[model := Prune(old(requestLogs[model]), now)]
    {
      assert requestLogs == requestLogs[model := requestLogs[model]];
      while requestLogs[model] != [] && now - requestLogs[model][0] > WINDOW
        invariant model in requestLogs
        invariant requestLogs == old(requestLogs)[model := requestLogs[model]]
        invariant Prune(requestLogs[model], now) == Prune(old(requestLogs[model]), now)
        decreases |requestLogs[model]|
      {
        requestLogs := requestLogs[model := requestLogs[model][1..]];
      }
    }

    /** One turn of either loop, under the lock. */
    method TakeTurn(model: string, turn: Turn) returns (d: Decision)
      requires Limits(model)
      modifies this
      ensures d == Decide(Prune(old(LogOf(model)), turn.now), limits[model], requestGap, turn)
      ensures requestLogs == old(requestLogs)[model := Appended(Prune(old(LogOf(model)), turn.now), d)]
    {
      hide Prune;
      var limit := limits[model];
      if model !in requestLogs {
        requestLogs := requestLogs[model := []];
      }
      PruneLog(model, turn.now);
      var log := requestLogs[model];
      match turn {
        case SyncTurn(now, gapReading, grantReading) =>
          if log != [] {
            var gap := gapReading - log[|log| - 1];
            if gap < requestGap {
              return Wait(requestGap - gap);
            }
          }
          if |log| < limit {
            requestLogs := requestLogs[model := log + [grantReading]];
            return Granted(grantReading);
          }
          d := Wait(LimitWait(log, now));
        case AsyncTurn(now) =>
          var waitNeeded := 0.0;
          if log != [] {
            var gap := now - log[|log| - 1];
            if gap < requestGap {
              waitNeeded := requestGap - gap;
            }
          }
          if |log| >= limit && LimitWait(log, now) > waitNeeded {
            waitNeeded := LimitWait(log, now);
          }
          if waitNeeded == 0.0 && |log| < limit {
            requestLogs := requestLogs[model := log + [now]];
            return Granted(now);
          }
          d := Wait(if waitNeeded > 0.0 then waitNeeded else SLACK);
      }
    }

    /**
      An acquire that takes the given turns until one is granted. A model without a positive limit is
      let through and leaves no trace.
    */
    method Acquire(model: string, turns: seq<Turn>) returns (granted: bool, taken: nat)
      modifies this
      ensures !Limits(model) ==> granted && taken == 0 && requestLogs == old(requestLogs)
      ensures Limits(model) ==>
                && taken <= |turns|
                && (granted || taken == |turns|)
                && LogOf(model) == Logs(old(LogOf(model)), limits[model], requestGap, turns[..taken])
                && GrantsOf(old(LogOf(model)), limits[model], requestGap, turns[..taken]) == (if granted then 1 else 0)
      ensures forall other :: other != model ==> (other in requestLogs <==> other in old(requestLogs))
      ensures forall other :: other != model && other in requestLogs ==> requestLogs[other] == old(requestLogs)[other]
    {
      taken := 0;
      if model !in limits || limits[model] <= 0 {
        return true, 0;
      }
      granted := false;
      while !granted && taken < |turns|
        invariant taken <= |turns|
        invariant LogOf(model) == Logs(old(LogOf(model)), limits[model], requestGap, turns[..taken])
        invariant GrantsOf(old(LogOf(model)), limits[model], requestGap, turns[..taken]) == (if granted then 1 else 0)
        invariant forall other :: other != model ==> (other in requestLogs <==> other in old(requestLogs))
        invariant forall other :: other != model && other in requestLogs ==>
            requestLogs[other] == old(requestLogs)[other]
        decreases |turns| - taken, !granted
      {
        assert turns[..taken + 1][..taken] == turns[..taken];
        var d := TakeTurn(model, turns[taken]);
        granted := d.Granted?;
        taken := taken + 1;
      }
    }
  }

  /** The log after the given turns, starting from any log. */
  function Logs(log: seq<real>, limit: int, gap: real, turns: seq<Turn>): seq<real>
    requires limit >= 1
  {
    if turns == [] then log
    else
      var n := |turns| - 1;
      var before := Prune(Logs(log, limit, gap, turns[..n]), turns[n].now);
      Appended(before, Decide(before, limit, gap, turns[n]))
  }

  /** How many of the turns are granted. */
  function GrantsOf(log: seq<real>, limit: int, gap: real, turns: seq<Turn>): nat
    requires limit >= 1
  {
    if turns == [] then 0
    else
      var n := |turns| - 1;
      var before := Prune(Logs(log, limit, gap, turns[..n]), turns[n].now);
      GrantsOf(log, limit, gap, turns[..n]) + (if Decide(before, limit, gap, turns[n]).Granted? then 1 else 0)
  }

  /** The limiter's own log is the log of the runs the safety theorems speak of. */
  lemma {:induction false} LogsAreTheRunsLogs(limit: int, gap: real, earlier: seq<Turn>, turns: seq<Turn>)
    requires limit >= 1
    ensures Logs(Run(limit, gap, earlier).log, limit, gap, turns) == Run(limit, gap, earlier + turns).log
    decreases |turns|
  {
    if turns == [] {
      assert earlier + turns == earlier;
    } else {
      var n := |turns| - 1;
      LogsAreTheRunsLogs(limit, gap, earlier, turns[..n]);
      assert (earlier + turns)[..|earlier + turns| - 1] == earlier + turns[..n];
    }
  }
}
