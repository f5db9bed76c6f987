/**
  The occupancy ledger of the generation worker, the capacity table beside it, and the set of full
  providers that the claim query filters on.
*/
module SlotTables {
  import opened Prelude

  // --------------------------------------------------------------- capacities

  /** Limits per provider and lane; a known provider without the lane has none, an unknown one the default. */
  datatype CapacityTable = CapacityTable(limits: map<string, map<string, int>>, defaults: map<string, int>) {
    function Get(provider: string, media: string): int {
      if provider !in limits then (if media in defaults then defaults[media] else 0)
      else if media in limits[provider] then limits[provider][media]
      else 0
    }
  }

  // -------------------------------------------------------------------- slots

  datatype Occupant = Occupant(handle: int, pending: bool)

  type Bucket = map<string, Occupant>

  datatype Lane = Lane(provider: string, media: string)

  type Slots = map<Lane, Bucket>

  function BucketOf(slots: Slots, lane: Lane): Bucket {
    if lane in slots then slots[lane] else map[]
  }

  predicate NoEmptyBucket(slots: Slots) {
    forall lane :: lane in slots ==> slots[lane] != map[]
  }

  function Promoted(b: Bucket, task: string): Bucket {
    if task in b then b[task := b[task].(pending := false)] else b
  }

  /** What is left after every finished occupant that is not pending has been removed. */
  function Undrained(b: Bucket, done: set<int>): Bucket {
    map task | task in b && (b[task].pending || b[task].handle !in done) :: b[task]
  }

  predicate HasRoom(b: Bucket, capacity: int) {
    capacity > 0 && |b| < capacity
  }

  predicate IsFull(slots: Slots, capacity: CapacityTable, provider: string, media: string) {
    capacity.Get(provider, media) > 0 && |BucketOf(slots, Lane(provider, media))| >= capacity.Get(provider, media)
  }

  function OccupiedProviders(slots: Slots, media: string): set<string> {
    set lane | lane in slots && lane.media == media && slots[lane] != map[] :: lane.provider
  }

  /** The set computed for the claim query: only providers that occupy something are looked at. */
  function PoolFullProviders(slots: Slots, capacity: CapacityTable, media: string): set<string> {
    set p | p in OccupiedProviders(slots, media)
            && capacity.Get(p, media) > 0
            && !HasRoom(BucketOf(slots, Lane(p, media)), capacity.Get(p, media))
  }

  /** Looking at occupied providers alone misses no full provider and names no other. */
  lemma PoolFullIsExact(slots: Slots, capacity: CapacityTable, media: string, provider: string)
    ensures provider in PoolFullProviders(slots, capacity, media) <==> IsFull(slots, capacity, provider, media)
  {
    var lane := Lane(provider, media);
    var b := BucketOf(slots, lane);
    assert |b| > 0 ==> b != map[] && lane in slots;
    assert lane in slots && slots[lane] != map[] ==> lane.provider in OccupiedProviders(slots, media);
  }

  // ---------------------------------------------------------------- the table

  class SlotTable {
    var slots: Slots

    ghost predicate Valid()
      reads this
    {
      NoEmptyBucket(slots)
    }

    constructor ()
      ensures Valid() && slots == map[]
    {
      slots := map[];
    }

    /** Takes or overwrites the task's slot; other lanes and other tasks are untouched. */
    method Register(lane: Lane, task: string, handle: int, pending: bool)
      requires Valid()
      modifies this
      ensures Valid()
      ensures BucketOf(slots, lane) == BucketOf(old(slots), lane)[task := Occupant(handle, pending)]
      ensures forall other :: other != lane ==> BucketOf(slots, other) == BucketOf(old(slots), other)
    {
      if lane !in slots {
        slots := slots[lane := map[]];
      }
      var b := slots[lane][task := Occupant(handle, pending)];
      assert task in b;
      slots := slots[lane := b];
    }

    method Promote(lane: Lane, task: string)
      requires Valid()
      modifies this
      ensures Valid()
      ensures BucketOf(slots, lane) == Promoted(BucketOf(old(slots), lane), task)
      ensures forall other :: other != lane ==> BucketOf(slots, other) == BucketOf(old(slots), other)
    {
      if lane !in slots {
        return;
      }
      if task in slots[lane] {
        var b := slots[lane][task := slots[lane][task].(pending := false)];
        assert task in b;
        slots := slots[lane := b];
      }
    }

    /** Gives the slot back whatever its phase; the last one takes the bucket with it. */
    method Release(lane: Lane, task: string)
      requires Valid()
      modifies this
      ensures Valid()
      ensures BucketOf(slots, lane) == BucketOf(old(slots), lane) - {task}
      ensures forall other :: other != lane ==> BucketOf(slots, other) == BucketOf(old(slots), other)
    {
      if lane !in slots {
        return;
      }
      var b := slots[lane] - {task};
      slots := slots[lane := b];
      if b == map[] {
        slots := slots - {lane};
      }
    }

    method Room(lane: Lane, capacity: int) returns (room: bool)
      ensures room == HasRoom(BucketOf(slots, lane), capacity)
    {
      if capacity <= 0 {
        return false;
      }
      var occupied := 0;
      if lane in slots {
        occupied := |slots[lane]|;
      }
      room := occupied < capacity;
    }

    /** The part of draining that concerns one lane. */
    method DrainLane(lane: Lane, done: set<int>) returns (drained: seq<(string, int)>)
      requires Valid() && lane in slots
      modifies this
      ensures Valid()
      ensures BucketOf(slots, lane) == Undrained(BucketOf(old(slots), lane), done)
      ensures forall other :: other != lane ==>
          BucketOf(slots, other) == BucketOf(old(slots), other) && (other in slots <==> other in old(slots))
      ensures forall task, handle :: (task, handle) in drained <==>
          Drains(BucketOf(old(slots), lane), done, task, handle)
    {
      drained := DrainedOf(slots[lane], done);
      var rest := Undrained(slots[lane], done);
      slots := slots[lane := rest];
      if rest == map[] {
        slots := slots - {lane};
      }
    }

    /** Removes and returns every finished occupant in flight; pending ones stay. */
    method DrainFinished(done: set<int>) returns (finished: seq<(string, int)>)
      requires Valid()
      modifies this
      ensures Valid()
      ensures forall lane :: BucketOf(slots, lane) == Undrained(BucketOf(old(slots), lane), done)
      ensures forall task, handle :: (task, handle) in finished <==>
                exists lane :: Drains(BucketOf(old(slots), lane), done, task, handle)
    {
      hide Undrained, Drains, BucketOf;
      finished := [];
      var todo := slots.Keys;
      ghost var before := slots;
      AbsentLanesHaveNothing(slots, done);
      while todo != {}
        invariant Valid()
        invariant todo <= before.Keys && forall lane :: lane in todo ==> lane in slots
        invariant forall lane :: lane in todo ==> BucketOf(slots, lane) == BucketOf(before, lane)
        invariant forall lane :: lane !in todo ==> BucketOf(slots, lane) == Undrained(BucketOf(before, lane), done)
        invariant forall task, handle :: (task, handle) in finished <==>
                    exists lane :: lane !in todo && Drains(BucketOf(before, lane), done, task, handle)
        decreases todo
      {
        var lane :| lane in todo;
        todo := todo - {lane};
        var drained := DrainLane(lane, done);
        finished := finished + drained;
      }
    }

    /** The executing task wherever it sits, for cancellation. */
    method FindByTask(task: string) returns (found: Option<int>)
      ensures found.Some? ==>
          exists lane :: task in BucketOf(slots, lane) && BucketOf(slots, lane)[task].handle == found.value
      ensures found.None? ==> forall lane :: task !in BucketOf(slots, lane)
    {
      var todo := slots.Keys;
      while todo != {}
        invariant todo <= slots.Keys
        invariant forall lane :: lane !in todo ==> task !in BucketOf(slots, lane)
        decreases todo
      {
        var lane :| lane in todo;
        todo := todo - {lane};
        if task in slots[lane] {
          assert task in BucketOf(slots, lane);
          return Some(slots[lane][task].handle);
        }
      }
      found := None;
    }
  }

  lemma AbsentLanesHaveNothing(slots: Slots, done: set<int>)
    ensures forall lane :: lane !in slots ==> BucketOf(slots, lane) == Undrained(BucketOf(slots, lane), done)
    ensures forall lane, task, handle :: lane !in slots ==> !Drains(BucketOf(slots, lane), done, task, handle)
  {
  }

  ghost predicate Drains(b: Bucket, done: set<int>, task: string, handle: int) {
    task in b && !b[task].pending && b[task].handle == handle && handle in done
  }

  /** The finished occupants of one bucket, in any order. */
  method DrainedOf(b: Bucket, done: set<int>) returns (r: seq<(string, int)>)
    ensures forall task, handle :: (task, handle) in r <==> Drains(b, done, task, handle)
  {
    r := [];
    var todo := b.Keys;
    while todo != {}
      invariant todo <= b.Keys
      invariant forall task, handle :: (task, handle) in r <==> task !in todo && Drains(b, done, task, handle)
      decreases todo
    {
      var task :| task in todo;
      todo := todo - {task};
      if !b[task].pending && b[task].handle in done {
        r := r + [(task, b[task].handle)];
      }
    }
  }
}
