/** The cache object: the critical sections as they are written, updating the guarded fields
    in place, proved against the transitions of `CacheState`. */
module CompressedCacheObject {
  import opened Common
  import opened CacheState
  import opened CacheEviction
  import opened CacheConcurrency
  import opened CacheSafety

  class CompressedCache<K(==,!new)> {
    const config: Config
    var entries: map<K, Entry>
    var heat: map<K, nat>
    var used: nat
    var reserved: nat
    var tick: nat

    ghost function Guarded(): State<K>
      reads this
    {
      State(entries, heat, used, reserved, tick)
    }

    constructor (config: Config)
      ensures this.config == config && Guarded() == Empty<K>().cache
    {
      this.config := config;
      entries, heat, used, reserved, tick := map[], map[], 0, 0, 0;
    }

    method NextTick()
      modifies this`tick
      ensures Guarded() == Ticked(old(Guarded()))
    {
      if tick < U64_MAX {
        tick := tick + 1;
      }
    }

    method Get(key: K) returns (outcome: GetOutcome)
      modifies this
      ensures (Guarded(), outcome) == CacheState.Get(old(Guarded()), key)
    {
      NextTick();
      if key !in entries || entries[key].Loading? {
        return Absent;
      }
      var e := entries[key];
      if e.pins >= USIZE_MAX {
        return PinOverflow;
      }
      entries := entries[key := e.(pins := e.pins + 1, lastUsed := tick)];
      outcome := Leased(e.bytes);
    }

    /** The unpinned entry that was used least recently. */
    method LeastRecentlyUsed() returns (candidate: Option<K>)
      ensures candidate == None ==> forall k | k in entries :: !Unpinned(Guarded(), k)
      ensures candidate.Some? ==>
                candidate.value in entries && entries[candidate.value].Ready? && Oldest(Guarded(), candidate.value)
    {
      ghost var s := Guarded();
      if forall k | k in entries :: !(entries[k].Ready? && entries[k].pins == 0) {
        return None;
      }
      ghost var unpinned := set k | k in entries && Unpinned(s, k);
      assert exists k | k in entries :: k in unpinned;
      ghost var oldest := OldestExists(s, unpinned);
      assert oldest in entries && Oldest(s, oldest);
      assert forall k | k in entries && entries[k].Ready? && entries[k].pins == 0 ::
        Unpinned(s, k) && LastUsed(s, oldest) <= LastUsed(s, k);
      var k :| k in entries && entries[k].Ready? && entries[k].pins == 0 &&
               forall l | l in entries && entries[l].Ready? && entries[l].pins == 0 ::
                 entries[k].lastUsed <= entries[l].lastUsed;
      candidate := Some(k);
    }

    /** The eviction loop. With exact counters it ends in the state `Reserve` describes, after
        removing the victims of a complete least-recently-used run. */
    method ReserveCapacity(requested: nat) returns (failure: Option<CacheError>, ghost victims: seq<K>)
      modifies this`entries, this`used
      ensures old(Accounted(Guarded())) ==>
                (Committed(old(Guarded()), requested) <= USIZE_MAX ==>
                   CompleteRun(old(Guarded()), config.capacity, requested, victims)) &&
                (Guarded(), failure) == Reserve(old(Guarded()), config.capacity, requested, victims)
    {
      victims := [];
      while true
        invariant old(Accounted(Guarded())) ==>
                    Accounted(Guarded()) && EvictionRun(old(Guarded()), config.capacity, requested, victims) &&
                    Guarded() == EvictAll(old(Guarded()), victims)
        invariant victims != [] ==> Committed(old(Guarded()), requested) <= USIZE_MAX
        invariant used <= old(used) && reserved == old(reserved) && (victims == [] ==> used == old(used))
        decreases |entries|
      {
        if used + reserved + requested > USIZE_MAX {
          failure := Some(ArithmeticOverflow);
          return;
        }
        if used + reserved + requested <= config.capacity {
          return None, victims;
        }
        ghost var s := Guarded();
        var choice := LeastRecentlyUsed();
        if choice == None {
          return Some(CapacityPinned), victims;
        }
        var candidate := choice.value;
        var bytes := entries[candidate].bytes;
        entries := entries - {candidate};
        if used < |bytes| {
          failure := Some(ArithmeticOverflow);
          if old(Accounted(Guarded())) {
            EvictAccounted(s, candidate);
          }
          return;
        }
        used := used - |bytes|;
        if old(Accounted(Guarded())) {
          EvictAccounted(s, candidate);
          ExtendRun(old(Guarded()), config.capacity, requested, victims, candidate);
        }
        victims := victims + [candidate];
      }
    }

    /** One pass of the retry loop of `get_or_try_insert`. */
    method Ask(key: K, expected: nat) returns (outcome: AskOutcome, ghost victims: seq<K>)
      modifies this
      ensures old(Accounted(Guarded())) && config.capacity <= USIZE_MAX ==>
                (Guarded(), outcome) == CacheState.Ask(config, old(Guarded()), key, expected, victims)
      ensures old(Accounted(Guarded())) ==> EvictsIfMissing(config, old(Guarded()), key, expected, victims)
    {
      victims := [];
      NextTick();
      if key in entries {
        match entries[key]
        case Ready(bytes, pins, _, _) =>
          if pins >= USIZE_MAX {
            return Failed(ArithmeticOverflow), victims;
          }
          entries := entries[key := entries[key].(pins := pins + 1, lastUsed := tick)];
          return Hit(bytes), victims;
        case Loading(_, _) =>
          return MustWait, victims;
      }
      outcome, victims := Miss(key, expected);
    }

    /** Nobody has the entry: count the request, make room and reserve. */
    method Miss(key: K, expected: nat) returns (outcome: AskOutcome, ghost victims: seq<K>)
      requires key !in entries
      modifies this
      ensures old(Accounted(Guarded())) ==>
                (Committed(old(Guarded()), expected) <= USIZE_MAX ==>
                   CompleteRun(Heated(old(Guarded()), key), config.capacity, expected, victims))
      ensures old(Accounted(Guarded())) && config.capacity <= USIZE_MAX ==>
                var hot := Heated(old(Guarded()), key);
                var (end, error) := Reserve(hot, config.capacity, expected, victims);
                (Guarded(), outcome) ==
                if error.Some? then (end, Failed(error.value))
                else (end.(reserved := end.reserved + expected,
                           entries := end.entries[key := Loading(expected, HeatOf(hot, key) >= config.admitAfter)]),
                      Reserved)
    {
      var requests := if key in heat then heat[key] else 0;
      requests := if requests >= U64_MAX then requests else requests + 1;
      heat := heat[key := requests];
      var resident := requests >= config.admitAfter;
      var failure: Option<CacheError>;
      failure, victims := ReserveCapacity(expected);
      if failure.Some? {
        return Failed(failure.value), victims;
      }
      if reserved + expected > USIZE_MAX {
        return Failed(ArithmeticOverflow), victims;
      }
      reserved := reserved + expected;
      entries := entries[key := Loading(expected, resident)];
      outcome := Reserved;
    }

    /** The checks `get_or_try_insert` makes before it first takes the lock. */
    method CheckRequest(expected: nat) returns (failure: Option<CacheError>)
      ensures failure == None <==> 0 < expected <= config.capacity
      ensures failure == Some(EmptyEntry) <==> expected == 0
      ensures failure == Some(EntryTooLarge) <==> expected > config.capacity && expected != 0
    {
      if expected == 0 {
        return Some(EmptyEntry);
      }
      failure := if expected > config.capacity then Some(EntryTooLarge) else None;
    }

    method Publish(key: K, bytes: seq<byte>) returns (failure: Option<CacheError>)
      modifies this
      ensures (Guarded(), failure) == CacheState.Publish(old(Guarded()), key, bytes)
    {
      if key !in entries || entries[key].Ready? || entries[key].expected != |bytes| {
        return Some(ReservationLost);
      }
      var resident := entries[key].resident;
      if reserved < |bytes| || used + |bytes| > USIZE_MAX {
        return Some(ArithmeticOverflow);
      }
      reserved := reserved - |bytes|;
      used := used + |bytes|;
      NextTick();
      entries := entries[key := Ready(bytes, 1, tick, resident)];
      failure := None;
    }

    method DropReservation(key: K, expected: nat)
      modifies this`entries, this`reserved
      ensures Guarded() == CacheState.DropReservation(old(Guarded()), key, expected)
    {
      if key in entries && entries[key].Loading? && entries[key].expected == expected {
        entries := entries - {key};
        reserved := SaturatingSub(reserved, expected);
      }
    }

    method DropLease(key: K)
      modifies this`entries, this`used
      ensures Guarded() == CacheState.DropLease(old(Guarded()), key)
    {
      if key !in entries || entries[key].Loading? {
        return;
      }
      var e := entries[key];
      var pins := SaturatingSub(e.pins, 1);
      if pins == 0 && !e.resident {
        entries := entries - {key};
        used := SaturatingSub(used, |e.bytes|);
      } else {
        entries := entries[key := e.(pins := pins)];
      }
    }

    /** One entry of an imported heat file. */
    method MergeHeat(key: K, requests: nat)
      modifies this`heat
      ensures Guarded() == WarmedBy(old(Guarded()), key, requests)
    {
      var current := if key in heat then heat[key] else 0;
      heat := heat[key := if current < requests then requests else current];
    }

    /** Takes one entry out and returns its bytes to the free space. */
    method Remove(key: K) returns (ok: bool)
      requires key in entries && entries[key].Ready?
      modifies this`entries, this`used
      ensures entries == old(entries) - {key}
      ensures ok == (|old(entries)[key].bytes| <= old(used))
      ensures used == if ok then old(used) - |old(entries)[key].bytes| else old(used)
      ensures old(used == Sum(entries, ReadyBytes)) ==> ok && used == Sum(entries, ReadyBytes)
    {
      var bytes := entries[key].bytes;
      SumRemove(entries, ReadyBytes, key);
      entries := entries - {key};
      ok := |bytes| <= used;
      if ok {
        used := used - |bytes|;
      }
    }

    /** Removes the unpinned entries one at a time; the order does not matter. */
    method ClearUnpinned() returns (removed: Result<nat, CacheError>)
      modifies this`entries, this`used
      ensures old(Accounted(Guarded())) ==>
                Guarded() == Cleared(old(Guarded())) && removed == Ok(|Unpinnable(old(Guarded()))|)
    {
      var keys := set k | k in entries && entries[k].Ready? && entries[k].pins == 0;
      var count := 0;
      ghost var s, all := Guarded(), keys;
      assert keys == Unpinnable(s).Keys;
      while keys != {}
        invariant keys <= all && entries == s.entries - (all - keys)
        invariant Accounted(s) ==> used == Sum(entries, ReadyBytes)
        invariant count == |all| - |keys|
        decreases |keys|
      {
        var key :| key in keys;
        var ok := Remove(key);
        if !ok {
          return Err(ArithmeticOverflow);
        }
        keys := keys - {key};
        count := count + 1;
      }
      removed := Ok(count);
      assert entries == s.entries - Unpinnable(s).Keys;
      ClearedByBytes(s);
    }
  }

  /** Clearing leaves exactly the bytes of the surviving entries in use. */
  lemma ClearedByBytes<K>(s: State<K>)
    ensures |Unpinnable(s)| == |Unpinnable(s).Keys|
    ensures Accounted(s) ==> Cleared(s).used == Sum(s.entries - Unpinnable(s).Keys, ReadyBytes)
  {
    SumSplit(s.entries, Unpinnable(s), ReadyBytes);
  }

  lemma {:induction false} ExtendRun<K>(s: State<K>, capacity: nat, requested: nat, victims: seq<K>, next: K)
    requires EvictionRun(s, capacity, requested, victims)
    requires Committed(EvictAll(s, victims), requested) > capacity && Oldest(EvictAll(s, victims), next)
    ensures EvictionRun(s, capacity, requested, victims + [next])
    ensures EvictAll(s, victims + [next]) == Evict(EvictAll(s, victims), next)
    decreases |victims|
  {
    if victims == [] {
      assert [next][1..] == [];
    } else {
      ExtendRun(Evict(s, victims[0]), capacity, requested, victims[1..], next);
      assert (victims + [next])[1..] == victims[1..] + [next];
    }
  }
}
