/**
  The claim loop: one lane after the other, it takes queued rows whose provider has room, fails those
  whose provider cannot serve the lane, and puts back those that turn out not to fit.
*/
module ClaimLoop {
  import opened Prelude
  import opened SlotTables

  datatype Status = Queued | Running | Failed | Settled

  /** A task row; `column` is the stored provider, which may be missing or out of date. */
  datatype Row = Row(media: string, video: bool, column: Option<string>, status: Status)

  const LANES: seq<string> := ["image", "video", "audio", "text"]

  predicate Eligible(row: Row, media: string, full: set<string>) {
    && row.status == Queued && row.media == media
    && (row.column.None? || row.column.value !in full)
  }

  /** The lane's queued rows that this cycle has not yet tried in vain. */
  function Untried(rows: map<string, Row>, media: string, tried: set<string>): set<string> {
    set id | id in rows && rows[id].status == Queued && rows[id].media == media && id !in tried
  }

  /** Nothing is enqueued or put back by others: rows stay, and no row becomes queued that was not. */
  ghost predicate OnlySettles(before: map<string, Row>, after: map<string, Row>) {
    && before.Keys == after.Keys
    && forall id :: id in before ==>
         after[id] == before[id] || (after[id] == before[id].(status := Settled))
  }

  /**
    A row after a cycle: left alone, taken, failed for want of support, put back with a fresh column, or settled
    by others.
  */
  ghost predicate Handled(capacity: CapacityTable, provider: string, before: Row, after: Row) {
    && after.media == before.media && after.video == before.video
    && (before.status != Queued ==> after.status == before.status || after.status == Settled)
    && (before.status == Queued && after.status == Failed ==> capacity.Get(provider, before.media) <= 0)
    && (after.column == before.column || (before.status == Queued && after.column == Some(provider)))
  }

  ghost predicate AllHandled(
      capacity: CapacityTable, project: string -> string, before: map<string, Row>, after: map<string, Row>)
  {
    before.Keys == after.Keys && forall id :: id in before ==> Handled(capacity, project(id), before[id], after[id])
  }

  lemma HandledThenSettled(
      capacity: CapacityTable, project: string -> string,
      before: map<string, Row>, middle: map<string, Row>, after: map<string, Row>)
    requires AllHandled(capacity, project, before, middle) && OnlySettles(middle, after)
    ensures AllHandled(capacity, project, before, after)
  {
  }

  lemma HandledThenHandled(
      capacity: CapacityTable, project: string -> string,
      before: map<string, Row>, middle: map<string, Row>, after: map<string, Row>)
    requires AllHandled(capacity, project, before, middle) && AllHandled(capacity, project, middle, after)
    ensures AllHandled(capacity, project, before, after)
  {
  }

  /** No bucket has grown past its capacity, and only the given lane's have grown at all. */
  ghost predicate Bounded(capacity: CapacityTable, media: string, before: Slots, after: Slots) {
    forall lane :: |BucketOf(after, lane)| <= |BucketOf(before, lane)|
                || (lane.media == media && |BucketOf(after, lane)| <= capacity.Get(lane.provider, media))
  }

  lemma RegisteredIsBounded(
      capacity: CapacityTable, lane: Lane, before: Slots, after: Slots, id: string, occupant: Occupant)
    requires HasRoom(BucketOf(before, lane), capacity.Get(lane.provider, lane.media))
    requires BucketOf(after, lane) == BucketOf(before, lane)[id := occupant]
    requires forall other :: other != lane ==> BucketOf(after, other) == BucketOf(before, other)
    ensures Bounded(capacity, lane.media, before, after)
  {
    hide BucketOf;
    var b := BucketOf(before, lane);
    assert b[id := occupant].Keys == b.Keys + {id};
    assert |b[id := occupant]| == |b.Keys + {id}| <= |b.Keys| + 1 == |b| + 1;
  }

  lemma BoundedAsIs(capacity: CapacityTable, media: string, slots: Slots)
    ensures Bounded(capacity, media, slots, slots)
  {
  }

  lemma ShrunkIsBounded(capacity: CapacityTable, media: string, before: Slots, after: Slots)
    requires forall lane :: |BucketOf(after, lane)| <= |BucketOf(before, lane)|
    ensures Bounded(capacity, media, before, after)
  {
  }

  lemma BoundedIsTransitive(capacity: CapacityTable, media: string, before: Slots, middle: Slots, after: Slots)
    requires Bounded(capacity, media, before, middle) && Bounded(capacity, media, middle, after)
    ensures Bounded(capacity, media, before, after)
  {
    hide BucketOf;
  }

  // ------------------------------------------------------------ specification

  datatype Next = Dispatched | Unsupported | Excluded | Stop | Exhausted

  /** The rows and the slots. */
  datatype Snap = Snap(rows: map<string, Row>, slots: Slots)

  /** The capacities, the provider each task resolves to when it is claimed, and the medium of the lane. */
  datatype Setup = Setup(capacity: CapacityTable, project: string -> string, media: string)

  /** What other coroutines do while the loop is suspended: they settle rows and give slots back. */
  datatype Disturbance = Disturbance(settled: set<string>, released: set<string>)

  /**
    What happens around one round: before the full providers are determined, between that and the query taking
    effect, how the two writes of a return to the queue go, and the handle of a new coroutine.
  */
  datatype Around = Around(earlier: Disturbance, meanwhile: Disturbance, persisted: bool, written: bool, handle: int)

  function WithoutTasks(slots: Slots, gone: set<string>): Slots {
    map lane | lane in slots && slots[lane] - gone != map[] :: slots[lane] - gone
  }

  function Disturbed(s: Snap, d: Disturbance): Snap {
    Snap(map id | id in s.rows :: if id in d.settled then s.rows[id].(status := Settled) else s.rows[id],
         WithoutTasks(s.slots, d.released))
  }

  /** The state that the claim query finds. */
  function Queried(s: Snap, a: Around): Snap {
    Disturbed(Disturbed(s, a.earlier), a.meanwhile)
  }

  /** The providers the query filters out. */
  function FilteredOut(setup: Setup, s: Snap, a: Around): set<string> {
    PoolFullProviders(Disturbed(s, a.earlier).slots, setup.capacity, setup.media)
  }

  function Home(setup: Setup, id: string): Lane {
    Lane(setup.project(id), setup.media)
  }

  function CapacityFor(setup: Setup, id: string): int {
    setup.capacity.Get(setup.project(id), setup.media)
  }

  /** The guarded return to the queue; a database error leaves the row as it is. */
  function PutBack(row: Row, provider: string, a: Around): Row {
    row.(column := if a.persisted then Some(provider) else row.column,
        status := if a.written then Queued else row.status)
  }

  /** What is done with a row just claimed: fail it, put it back, or give it a slot. */
  function Placed(setup: Setup, s: Snap, id: string, a: Around): (Snap, Next)
    requires id in s.rows
  {
    var row, lane := s.rows[id], Home(setup, id);
    if CapacityFor(setup, id) <= 0 then (s.(rows := s.rows[id := row.(status := Failed)]), Unsupported)
    else if !HasRoom(BucketOf(s.slots, lane), CapacityFor(setup, id)) then
      (s.(rows := s.rows[id := PutBack(row, setup.project(id), a)]), if row.video then Excluded else Stop)
    else (s.(slots := s.slots[lane := BucketOf(s.slots, lane)[id := Occupant(a.handle, false)]]), Dispatched)
  }

  function Claimed(s: Snap, id: string): Snap
    requires id in s.rows
  {
    s.(rows := s.rows[id := s.rows[id].(status := Running)])
  }

  datatype Round = Round(before: Snap, claimed: Option<string>, next: Next, after: Snap)

  /**
    One round of the loop; which eligible row the query returns is its own choice, but it finds one if there is
    one.
  */
  ghost predicate LegalRound(setup: Setup, tried: set<string>, a: Around, r: Round) {
    var found, full := Queried(r.before, a), FilteredOut(setup, r.before, a);
    match r.claimed
    case None =>
      && r.next == Exhausted && r.after == found
      && forall id :: id in Untried(found.rows, setup.media, tried) ==> !Eligible(found.rows[id], setup.media, full)
    case Some(id) =>
      && id in Untried(found.rows, setup.media, tried) && Eligible(found.rows[id], setup.media, full)
      && (r.after, r.next) == Placed(setup, Claimed(found, id), id, a)
  }

  /** The rows put back and excluded so far. */
  function Tried(rounds: seq<Round>): set<string> {
    set i | 0 <= i < |rounds| && rounds[i].next == Excluded && rounds[i].claimed.Some? :: rounds[i].claimed.value
  }

  predicate GoesOn(media: string, next: Next) {
    next.Unsupported? || next.Excluded? || (next.Dispatched? && media != "text")
  }

  function EndOf(start: Snap, rounds: seq<Round>): Snap {
    if rounds == [] then start else rounds[|rounds| - 1].after
  }

  /** Rounds in a row, each but the last going on. */
  ghost predicate Rounds(setup: Setup, around: nat -> Around, start: Snap, rounds: seq<Round>) {
    rounds != [] ==>
      var n := |rounds| - 1;
      && Rounds(setup, around, start, rounds[..n])
      && (n > 0 ==> GoesOn(setup.media, rounds[n - 1].next))
      && rounds[n].before == EndOf(start, rounds[..n])
      && LegalRound(setup, Tried(rounds[..n]), around(n), rounds[n])
  }

  /** One lane of a cycle, from its first round to the one that ends it. */
  ghost predicate LaneRun(setup: Setup, around: nat -> Around, start: Snap, rounds: seq<Round>) {
    rounds != [] && Rounds(setup, around, start, rounds) && !GoesOn(setup.media, rounds[|rounds| - 1].next)
  }

  predicate AnyClaimed(rounds: seq<Round>) {
    exists i :: 0 <= i < |rounds| && (rounds[i].next.Dispatched? || rounds[i].next.Unsupported?)
  }

  function CycleEnd(start: Snap, lanes: seq<seq<Round>>): Snap {
    if lanes == [] then start else EndOf(CycleEnd(start, lanes[..|lanes| - 1]), lanes[|lanes| - 1])
  }

  /** The lanes of a cycle one after the other. */
  ghost predicate Cycle(
      capacity: CapacityTable, project: string -> string, around: nat -> nat -> Around, start: Snap,
      lanes: seq<seq<Round>>)
    requires |lanes| <= |LANES|
  {
    lanes != [] ==>
      var n := |lanes| - 1;
      && Cycle(capacity, project, around, start, lanes[..n])
      && LaneRun(Setup(capacity, project, LANES[n]), around(n), CycleEnd(start, lanes[..n]), lanes[n])
  }

  // -------------------------------------------------------------- of one round

  lemma DisturbedSettles(s: Snap, d: Disturbance)
    ensures OnlySettles(s.rows, Disturbed(s, d).rows)
    ensures NoEmptyBucket(Disturbed(s, d).slots)
    ensures forall lane :: |BucketOf(Disturbed(s, d).slots, lane)| <= |BucketOf(s.slots, lane)|
  {
    var after := Disturbed(s, d).slots;
    forall lane ensures |BucketOf(after, lane)| <= |BucketOf(s.slots, lane)| {
      var b := BucketOf(s.slots, lane);
      assert (b - d.released).Keys <= b.Keys;
      SubsetCount((b - d.released).Keys, b.Keys);
      assert |(b - d.released).Keys| == |b - d.released|;
      assert BucketOf(after, lane) == b - d.released;
    }
  }

  lemma SettledTwice(before: map<string, Row>, middle: map<string, Row>, after: map<string, Row>)
    requires OnlySettles(before, middle) && OnlySettles(middle, after)
    ensures OnlySettles(before, after)
  {
  }

  /** Up to the query nothing becomes queued and no bucket grows. */
  lemma QueriedSettles(s: Snap, a: Around)
    ensures OnlySettles(s.rows, Queried(s, a).rows)
    ensures NoEmptyBucket(Queried(s, a).slots)
    ensures forall lane :: |BucketOf(Queried(s, a).slots, lane)| <= |BucketOf(s.slots, lane)|
  {
    hide Disturbed, BucketOf, OnlySettles;
    var middle := Disturbed(s, a.earlier);
    DisturbedSettles(s, a.earlier);
    DisturbedSettles(middle, a.meanwhile);
    SettledTwice(s.rows, middle.rows, Queried(s, a).rows);
    forall lane ensures |BucketOf(Queried(s, a).slots, lane)| <= |BucketOf(s.slots, lane)| {
      assert |BucketOf(middle.slots, lane)| <= |BucketOf(s.slots, lane)|;
    }
  }

  lemma PlacedIsHandled(setup: Setup, s: Snap, id: string, a: Around)
    requires id in s.rows && s.rows[id].status == Queued && s.rows[id].media == setup.media
    ensures AllHandled(setup.capacity, setup.project, s.rows, Placed(setup, Claimed(s, id), id, a).0.rows)
    ensures Bounded(setup.capacity, setup.media, s.slots, Placed(setup, Claimed(s, id), id, a).0.slots)
    ensures NoEmptyBucket(s.slots) ==> NoEmptyBucket(Placed(setup, Claimed(s, id), id, a).0.slots)
  {
    hide Bounded;
    var lane, t := Home(setup, id), Placed(setup, Claimed(s, id), id, a);
    BoundedAsIs(setup.capacity, setup.media, s.slots);
    if t.1 == Dispatched {
      var b := BucketOf(s.slots, lane)[id := Occupant(a.handle, false)];
      assert id in b;
      RegisteredIsBounded(setup.capacity, lane, s.slots, t.0.slots, id, Occupant(a.handle, false));
    }
  }

  /** No bucket grows past its capacity in a round, and every row is handled as it should be. */
  lemma RoundIsSafe(setup: Setup, tried: set<string>, a: Around, r: Round)
    requires LegalRound(setup, tried, a, r)
    ensures AllHandled(setup.capacity, setup.project, r.before.rows, r.after.rows)
    ensures Bounded(setup.capacity, setup.media, r.before.slots, r.after.slots)
    ensures NoEmptyBucket(r.after.slots)
  {
    hide BucketOf, Bounded, Handled, OnlySettles, Queried, Placed, FilteredOut, NoEmptyBucket;
    var found := Queried(r.before, a);
    QueriedSettles(r.before, a);
    ShrunkIsBounded(setup.capacity, setup.media, r.before.slots, found.slots);
    HandledAsIs(setup.capacity, setup.project, r.before.rows);
    HandledThenSettled(setup.capacity, setup.project, r.before.rows, r.before.rows, found.rows);
    if r.claimed.Some? {
      PlacedIsHandled(setup, found, r.claimed.value, a);
      HandledThenHandled(setup.capacity, setup.project, r.before.rows, found.rows, r.after.rows);
      BoundedIsTransitive(setup.capacity, setup.media, r.before.slots, found.slots, r.after.slots);
    }
  }

  function TriedAfter(tried: set<string>, r: Round): set<string> {
    if r.next == Excluded && r.claimed.Some? then tried + {r.claimed.value} else tried
  }

  /** A round after which the loop goes on leaves strictly fewer rows to try. */
  lemma RoundMakesProgress(setup: Setup, tried: set<string>, a: Around, r: Round)
    requires LegalRound(setup, tried, a, r) && GoesOn(setup.media, r.next)
    ensures Untried(r.after.rows, setup.media, TriedAfter(tried, r)) < Untried(r.before.rows, setup.media, tried)
  {
    hide Queried, FilteredOut, OnlySettles, BucketOf;
    var found, id := Queried(r.before, a), r.claimed.value;
    QueriedSettles(r.before, a);
    NothingNewUntried(r.before.rows, found.rows, setup.media, tried);
    assert id in Untried(r.before.rows, setup.media, tried);
    assert id !in Untried(r.after.rows, setup.media, TriedAfter(tried, r));
    forall other | other in Untried(r.after.rows, setup.media, TriedAfter(tried, r))
      ensures other in Untried(r.before.rows, setup.media, tried)
    {
      assert other != id && r.after.rows[other] == found.rows[other];
      assert other in Untried(found.rows, setup.media, tried);
    }
  }

  /**
    A round stops the loop for one of three reasons: every untried row still queued belongs to a provider found
    full, or a row other than a video went back because its provider is full, or one text task was dispatched.
  */
  ghost predicate StopsForAReason(setup: Setup, tried: set<string>, a: Around, r: Round) {
    || (&& r.next == Exhausted
        && LeavesOnlyFull(r.after.rows, Disturbed(r.before, a.earlier).slots, setup.capacity, setup.media, tried))
    || (&& r.next == Stop && r.claimed.Some? && r.claimed.value in r.after.rows && !r.after.rows[r.claimed.value].video
        && IsFull(r.after.slots, setup.capacity, setup.project(r.claimed.value), setup.media))
    || (&& r.next == Dispatched && setup.media == "text" && r.claimed.Some?
        && r.claimed.value in BucketOf(r.after.slots, Home(setup, r.claimed.value)))
  }

  lemma RoundStopsForAReason(setup: Setup, tried: set<string>, a: Around, r: Round)
    requires LegalRound(setup, tried, a, r) && !GoesOn(setup.media, r.next)
    ensures StopsForAReason(setup, tried, a, r)
  {
    hide Queried, Disturbed;
    if r.next == Exhausted {
      LeftoversAreFull(r.after.rows, Disturbed(r.before, a.earlier).slots, setup.capacity, setup.media, tried);
    }
  }

  lemma ExcludedIsFull(setup: Setup, tried: set<string>, a: Around, r: Round)
    requires LegalRound(setup, tried, a, r) && r.next == Excluded
    ensures r.claimed.Some? && r.claimed.value in r.after.rows && r.after.rows[r.claimed.value].video
    ensures IsFull(r.after.slots, setup.capacity, setup.project(r.claimed.value), setup.media)
  {
    hide Queried, FilteredOut, Eligible;
  }

  // --------------------------------------------------------------- of whole lanes

  lemma TriedOneMore(rounds: seq<Round>, r: Round)
    ensures Tried(rounds + [r]) == TriedAfter(Tried(rounds), r)
  {
    var more := rounds + [r];
    assert forall i :: 0 <= i < |rounds| ==> more[i] == rounds[i];
    assert more[|rounds|] == r;
    forall id | id in Tried(rounds) ensures id in Tried(more) {
      var i :| 0 <= i < |rounds| && rounds[i].next == Excluded && rounds[i].claimed == Some(id);
      assert more[i].next == Excluded && more[i].claimed == Some(id);
    }
    forall id | id in Tried(more) ensures id in TriedAfter(Tried(rounds), r) {
      var i :| 0 <= i < |more| && more[i].next == Excluded && more[i].claimed == Some(id);
      if i < |rounds| {
        assert rounds[i].next == Excluded && rounds[i].claimed == Some(id);
      }
    }
  }

  /** However a lane runs: no bucket grows past its capacity, and every row is handled as it should be. */
  lemma {:induction false} RoundsAreSafe(setup: Setup, around: nat -> Around, start: Snap, rounds: seq<Round>)
    requires Rounds(setup, around, start, rounds)
    ensures AllHandled(setup.capacity, setup.project, start.rows, EndOf(start, rounds).rows)
    ensures Bounded(setup.capacity, setup.media, start.slots, EndOf(start, rounds).slots)
  {
    hide AllHandled, Bounded, LegalRound, Tried;
    if rounds == [] {
      HandledAsIs(setup.capacity, setup.project, start.rows);
      BoundedAsIs(setup.capacity, setup.media, start.slots);
    } else {
      var n := |rounds| - 1;
      var r := rounds[n];
      RoundsAreSafe(setup, around, start, rounds[..n]);
      RoundIsSafe(setup, Tried(rounds[..n]), around(n), r);
      HandledThenHandled(setup.capacity, setup.project, start.rows, r.before.rows, r.after.rows);
      BoundedIsTransitive(setup.capacity, setup.media, start.slots, r.before.slots, r.after.slots);
    }
  }

  /** Each round that goes on uses up a queued row, so a lane ends after at most one round more than it has rows. */
  lemma {:induction false} RoundsAreFew(setup: Setup, around: nat -> Around, start: Snap, rounds: seq<Round>)
    requires Rounds(setup, around, start, rounds)
    requires rounds != [] ==> GoesOn(setup.media, rounds[|rounds| - 1].next)
    ensures |rounds| + |Untried(EndOf(start, rounds).rows, setup.media, Tried(rounds))|
            <= |Untried(start.rows, setup.media, {})|
  {
    hide LegalRound, Tried, Untried;
    if rounds == [] {
      assert Tried(rounds) == {} by { NoRoundsYet(setup, around, start); }
    } else {
      var n := |rounds| - 1;
      RoundsAreFew(setup, around, start, rounds[..n]);
      RoundMakesProgress(setup, Tried(rounds[..n]), around(n), rounds[n]);
      TriedOneMore(rounds[..n], rounds[n]);
      assert rounds[..n] + [rounds[n]] == rounds;
      var left, had := Untried(EndOf(start, rounds).rows, setup.media, Tried(rounds)),
                       Untried(rounds[n].before.rows, setup.media, Tried(rounds[..n]));
      var id :| id in had && id !in left;
      SubsetCount(left, had - {id});
    }
  }

  /** Every excluded row is a video task that was put back while the provider it resolves to was full. */
  lemma {:induction false} TriedInVain(setup: Setup, around: nat -> Around, start: Snap, rounds: seq<Round>, id: string)
    requires Rounds(setup, around, start, rounds) && id in Tried(rounds)
    ensures exists i :: 0 <= i < |rounds| && rounds[i].claimed == Some(id) && id in rounds[i].after.rows
              && rounds[i].after.rows[id].video
              && IsFull(rounds[i].after.slots, setup.capacity, setup.project(id), setup.media)
  {
    hide LegalRound, IsFull, TriedAfter;
    var n := |rounds| - 1;
    if rounds[n].next == Excluded && rounds[n].claimed == Some(id) {
      ExcludedIsFull(setup, Tried(rounds[..n]), around(n), rounds[n]);
    } else {
      var k :| 0 <= k < |rounds| && rounds[k].next == Excluded && rounds[k].claimed == Some(id);
      assert rounds[..n][k] == rounds[k];
      TriedInVain(setup, around, start, rounds[..n], id);
      var i :| 0 <= i < n && rounds[..n][i].claimed == Some(id) && id in rounds[..n][i].after.rows
        && rounds[..n][i].after.rows[id].video
        && IsFull(rounds[..n][i].after.slots, setup.capacity, setup.project(id), setup.media);
      assert rounds[..n][i] == rounds[i];
    }
  }

  /**
    Whatever the queue returns and the other coroutines do: a lane ends after at most one round more than it has
    queued rows, and only because every row left untried belongs to a provider found full, or because a non-video
    row was put back from a full provider, or because one text task was dispatched.
  */
  lemma LaneRunMeaning(setup: Setup, around: nat -> Around, start: Snap, rounds: seq<Round>)
    requires LaneRun(setup, around, start, rounds)
    ensures |rounds| <= |Untried(start.rows, setup.media, {})| + 1
    ensures AllHandled(setup.capacity, setup.project, start.rows, EndOf(start, rounds).rows)
    ensures Bounded(setup.capacity, setup.media, start.slots, EndOf(start, rounds).slots)
    ensures var n := |rounds| - 1; StopsForAReason(setup, Tried(rounds[..n]), around(n), rounds[n])
  {
    hide LegalRound, Tried, Untried, AllHandled, Bounded, StopsForAReason;
    var n := |rounds| - 1;
    RoundsAreSafe(setup, around, start, rounds);
    RoundsAreFew(setup, around, start, rounds[..n]);
    assert n > 0 ==> rounds[..n][n - 1] == rounds[n - 1];
    RoundStopsForAReason(setup, Tried(rounds[..n]), around(n), rounds[n]);
  }

  /**
    A whole cycle keeps every bucket within its capacity, unless it was over it before, and handles every row as
    it should.
  */
  lemma {:induction false} CycleIsSafe(
      capacity: CapacityTable, project: string -> string, around: nat -> nat -> Around, start: Snap,
      lanes: seq<seq<Round>>)
    requires |lanes| <= |LANES| && Cycle(capacity, project, around, start, lanes)
    ensures AllHandled(capacity, project, start.rows, CycleEnd(start, lanes).rows)
    ensures forall lane ::
              || |BucketOf(CycleEnd(start, lanes).slots, lane)| <= |BucketOf(start.slots, lane)|
              || |BucketOf(CycleEnd(start, lanes).slots, lane)| <= capacity.Get(lane.provider, lane.media)
  {
    hide AllHandled, BucketOf, Rounds;
    if lanes == [] {
      HandledAsIs(capacity, project, start.rows);
    } else {
      var n := |lanes| - 1;
      var setup, middle := Setup(capacity, project, LANES[n]), CycleEnd(start, lanes[..n]);
      CycleIsSafe(capacity, project, around, start, lanes[..n]);
      RoundsAreSafe(setup, around(n), middle, lanes[n]);
      HandledThenHandled(capacity, project, start.rows, middle.rows, CycleEnd(start, lanes).rows);
    }
  }

  // ---------------------------------------------------------------- imperative

  lemma BucketsDetermineSlots(a: Slots, b: Slots)
    requires NoEmptyBucket(a) && NoEmptyBucket(b) && forall lane :: BucketOf(a, lane) == BucketOf(b, lane)
    ensures a == b
  {
    forall lane ensures lane in a <==> lane in b {
      assert BucketOf(a, lane) == BucketOf(b, lane);
    }
    forall lane | lane in a ensures a[lane] == b[lane] {
      assert BucketOf(a, lane) == BucketOf(b, lane);
    }
  }

  class Worker {
    var rows: map<string, Row>
    const table: SlotTable
    const capacity: CapacityTable
    /** The provider a task resolves to when it is claimed. */
    const project: string -> string

    constructor (rows: map<string, Row>, table: SlotTable, capacity: CapacityTable, project: string -> string)
      ensures this.rows == rows && this.table == table && this.capacity == capacity && this.project == project
    {
      this.rows, this.table, this.capacity, this.project := rows, table, capacity, project;
    }

    ghost predicate Valid()
      reads this, table
    {
      table.Valid()
    }

    function Now(): Snap
      reads this, table
    {
      Snap(rows, table.slots)
    }

    /** The other coroutines' turn. */
    method Elsewhere(d: Disturbance)
      requires Valid()
      modifies this`rows, table
      ensures Valid() && Now() == Disturbed(old(Now()), d)
    {
      rows := map id | id in rows :: if id in d.settled then rows[id].(status := Settled) else rows[id];
      table.slots := WithoutTasks(table.slots, d.released);
    }

    /**
      `queue.claim_next_task`: some eligible row that is not excluded, now running; nothing only when there is
      none.
    */
    method ClaimNext(media: string, full: set<string>, tried: set<string>) returns (claimed: Option<string>)
      modifies this`rows
      ensures claimed.None? ==> rows == old(rows) && forall id :: id in Untried(rows, media, tried) ==>
          !Eligible(rows[id], media, full)
      ensures claimed.Some? ==>
                && claimed.value in Untried(old(rows), media, tried)
                && Eligible(old(rows)[claimed.value], media, full)
                && rows == old(rows)[claimed.value := old(rows)[claimed.value].(status := Running)]
    {
      var candidates := set id | id in Untried(rows, media, tried) && Eligible(rows[id], media, full);
      if candidates == {} {
        assert forall id :: id in Untried(rows, media, tried) && Eligible(rows[id], media, full) ==> id in candidates;
        return None;
      }
      var id :| id in candidates;
      rows := rows[id := rows[id].(status := Running)];
      claimed := Some(id);
    }

    /** Two writes, either of which may fail: the refreshed column, and the guarded return to queued. */
    method Requeue(id: string, provider: string, a: Around)
      requires id in rows && rows[id].status == Running
      modifies this`rows
      ensures rows == old(rows)[id := PutBack(old(rows)[id], provider, a)]
    {
      if a.persisted {
        rows := rows[id := rows[id].(column := Some(provider))];
      }
      if a.written {
        rows := rows[id := rows[id].(status := Queued)];
      }
    }

    method Place(id: string, media: string, a: Around) returns (next: Next)
      requires Valid() && id in rows && rows[id].status == Running && rows[id].media == media
      modifies this`rows, table
      ensures Valid() && (Now(), next) == Placed(Setup(capacity, project, media), old(Now()), id, a)
    {
      hide BucketOf;
      var provider := project(id);
      var lane := Lane(provider, media);
      var cap := capacity.Get(provider, media);
      if cap <= 0 {
        rows := rows[id := rows[id].(status := Failed)];
        return Unsupported;
      }
      var room := table.Room(lane, cap);
      if !room {
        Requeue(id, provider, a);
        return if rows[id].video then Excluded else Stop;
      }
      ghost var before := table.slots;
      table.Register(lane, id, a.handle, false);
      RegisteredSlots(before, table.slots, lane, id, Occupant(a.handle, false));
      next := Dispatched;
    }

    /** One round of the loop: the query over what is not full, then the placement of what it returns. */
    method TryOne(media: string, tried: set<string>, a: Around) returns (next: Next, claimed: Option<string>)
      requires Valid()
      modifies this`rows, table
      ensures Valid()
      ensures LegalRound(Setup(capacity, project, media), tried, a, Round(old(Now()), claimed, next, Now()))
    {
      hide BucketOf, PoolFullProviders, WithoutTasks;
      Elsewhere(a.earlier);
      var full := PoolFullProviders(table.slots, capacity, media);
      Elsewhere(a.meanwhile);
      ghost var found := Now();
      claimed := ClaimNext(media, full, tried);
      if claimed.None? {
        return Exhausted, None;
      }
      assert Now() == Claimed(found, claimed.value);
      next := Place(claimed.value, media, a);
    }

    /** One lane of a cycle: it ends, and is a lane run from where it started to where it is. */
    method ClaimLane(media: string, around: nat -> Around) returns (claimedAny: bool, ghost rounds: seq<Round>)
      requires Valid()
      modifies this`rows, table
      ensures Valid()
      ensures LaneRun(Setup(capacity, project, media), around, old(Now()), rounds)
      ensures Now() == EndOf(old(Now()), rounds) && claimedAny == AnyClaimed(rounds)
    {
      hide LegalRound, Untried, Tried, Rounds, EndOf, AnyClaimed, PutBack, Disturbed, Eligible, BucketOf;
      claimedAny, rounds := false, [];
      var tried: set<string> := {};
      var i: nat := 0;
      NoRoundsYet(Setup(capacity, project, media), around, Now());
      while true
        invariant Valid() && i == |rounds| && tried == Tried(rounds)
        invariant Rounds(Setup(capacity, project, media), around, old(Now()), rounds)
        invariant GoingOn(media, rounds)
        invariant Now() == EndOf(old(Now()), rounds) && claimedAny == AnyClaimed(rounds)
        decreases Untried(rows, media, tried)
      {
        ghost var before, earlier := Now(), rounds;
        var next, claimed := TryOne(media, tried, around(i));
        ghost var r := Round(before, claimed, next, Now());
        rounds := rounds + [r];
        OneMoreRound(Setup(capacity, project, media), around, old(Now()), earlier, r);
        TriedOneMore(earlier, r);
        ClaimedOneMore(earlier, r);
        claimedAny := claimedAny || next.Dispatched? || next.Unsupported?;
        if next.Stop? || next.Exhausted? || (next.Dispatched? && media == "text") {
          return;
        }
        RoundMakesProgress(Setup(capacity, project, media), tried, around(i), r);
        if next.Excluded? {
          ExcludedIsFull(Setup(capacity, project, media), tried, around(i), r);
          tried := tried + {claimed.value};
        }
        i := i + 1;
      }
    }

    /** A whole cycle: every lane in turn. */
    method ClaimTasks(around: nat -> nat -> Around) returns (claimedAny: bool, ghost lanes: seq<seq<Round>>)
      requires Valid()
      modifies this`rows, table
      ensures Valid()
      ensures |lanes| == |LANES| && Cycle(capacity, project, around, old(Now()), lanes)
      ensures Now() == CycleEnd(old(Now()), lanes)
      ensures claimedAny == exists i :: 0 <= i < |lanes| && AnyClaimed(lanes[i])
    {
      hide LaneRun, AnyClaimed, EndOf;
      claimedAny, lanes := false, [];
      for i := 0 to |LANES|
        invariant Valid() && |lanes| == i
        invariant Cycle(capacity, project, around, old(Now()), lanes)
        invariant Now() == CycleEnd(old(Now()), lanes)
        invariant claimedAny == exists k :: 0 <= k < |lanes| && AnyClaimed(lanes[k])
      {
        ghost var earlier := lanes;
        var any;
        ghost var rounds;
        any, rounds := ClaimLane(LANES[i], around(i));
        lanes := lanes + [rounds];
        assert lanes[..i] == earlier && lanes[i] == rounds;
        assert forall k :: 0 <= k < i ==> lanes[k] == earlier[k];
        claimedAny := claimedAny || any;
      }
    }
  }

  lemma RegisteredSlots(before: Slots, after: Slots, lane: Lane, id: string, occupant: Occupant)
    requires NoEmptyBucket(before) && NoEmptyBucket(after)
    requires BucketOf(after, lane) == BucketOf(before, lane)[id := occupant]
    requires forall other :: other != lane ==> BucketOf(after, other) == BucketOf(before, other)
    ensures after == before[lane := BucketOf(before, lane)[id := occupant]]
  {
    var expected := before[lane := BucketOf(before, lane)[id := occupant]];
    assert id in expected[lane];
    forall other ensures BucketOf(after, other) == BucketOf(expected, other) {}
    BucketsDetermineSlots(after, expected);
  }

  predicate GoingOn(media: string, rounds: seq<Round>) {
    rounds != [] ==> GoesOn(media, rounds[|rounds| - 1].next)
  }

  lemma NoRoundsYet(setup: Setup, around: nat -> Around, start: Snap)
    ensures Rounds(setup, around, start, []) && GoingOn(setup.media, []) && Tried([]) == {}
    ensures EndOf(start, []) == start && !AnyClaimed([])
  {
  }

  lemma OneMoreRound(setup: Setup, around: nat -> Around, start: Snap, rounds: seq<Round>, r: Round)
    requires Rounds(setup, around, start, rounds) && GoingOn(setup.media, rounds) && r.before == EndOf(start, rounds)
    requires LegalRound(setup, Tried(rounds), around(|rounds|), r)
    ensures Rounds(setup, around, start, rounds + [r]) && EndOf(start, rounds + [r]) == r.after
    ensures GoingOn(setup.media, rounds + [r]) <==> GoesOn(setup.media, r.next)
    ensures !GoesOn(setup.media, r.next) ==> LaneRun(setup, around, start, rounds + [r])
  {
    hide LegalRound, Tried;
    var more := rounds + [r];
    assert more[..|rounds|] == rounds && more[|rounds|] == r;
  }

  lemma ClaimedOneMore(rounds: seq<Round>, r: Round)
    ensures AnyClaimed(rounds + [r]) <==> AnyClaimed(rounds) || r.next.Dispatched? || r.next.Unsupported?
  {
    var more := rounds + [r];
    assert more[|rounds|] == r && forall i :: 0 <= i < |rounds| ==> more[i] == rounds[i];
    if AnyClaimed(rounds) {
      var i :| 0 <= i < |rounds| && (rounds[i].next.Dispatched? || rounds[i].next.Unsupported?);
      assert more[i].next == rounds[i].next;
    }
  }

  lemma NothingNewUntried(before: map<string, Row>, after: map<string, Row>, media: string, tried: set<string>)
    requires OnlySettles(before, after)
    ensures Untried(after, media, tried) <= Untried(before, media, tried)
  {
  }

  lemma HandledAsIs(capacity: CapacityTable, project: string -> string, rows: map<string, Row>)
    ensures AllHandled(capacity, project, rows, rows)
  {
  }

  /** Every row left queued in the lane was tried in vain or belongs to a full provider. */
  ghost predicate LeavesOnlyFull(
      rows: map<string, Row>, slots: Slots, capacity: CapacityTable, media: string, tried: set<string>)
  {
    forall id :: id in Untried(rows, media, tried) ==>
      rows[id].column.Some? && IsFull(slots, capacity, rows[id].column.value, media)
  }

  /** What the claim query passes over because of its provider really is full. */
  lemma LeftoversAreFull(rows: map<string, Row>, slots: Slots, capacity: CapacityTable, media: string,
      tried: set<string>)
    requires forall id :: id in Untried(rows, media, tried) ==>
               !Eligible(rows[id], media, PoolFullProviders(slots, capacity, media))
    ensures LeavesOnlyFull(rows, slots, capacity, media, tried)
  {
    forall id | id in Untried(rows, media, tried)
      ensures rows[id].column.Some? && IsFull(slots, capacity, rows[id].column.value, media)
    {
      if rows[id].column.Some? {
        PoolFullIsExact(slots, capacity, media, rows[id].column.value);
      }
    }
  }
}
