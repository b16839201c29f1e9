/** The life of one cache entry, told without the state functions: what a step may make of it, what
    a request is answered, and what the admission decision and the request counts amount to. */
module CacheLife {
  import opened Common
  import opened CacheState
  import opened CacheEviction
  import opened CacheConcurrency
  import opened CacheSafety
  import opened CacheRecency

  function EntryOf<K>(s: State<K>, key: K): Option<Entry> {
    if key in s.entries then Some(s.entries[key]) else None
  }

  /** Thread `t` is inside a request for `key`. */
  predicate AsksFor<K(==)>(w: World<K>, t: nat, key: K) {
    ThreadPhase(w, t).Asking? && ThreadPhase(w, t).key == key
  }

  /** The step looks up `key` or asks for it. */
  predicate Requests<K(==)>(w: World<K>, step: Step<K>, key: K) {
    (step.Lookup? && step.key == key) || (step.Ask? && AsksFor(w, step.thread, key))
  }

  predicate ReturnsLease<K(==)>(w: World<K>, step: Step<K>, key: K) {
    step.DropLease? && step.lease in w.leases && w.leases[step.lease].key == key
  }

  /** Every change a step may make to an entry. An entry begins as a load that some thread asked for;
      a load is published with the bytes its owner was promised, keeping the admission decision, or
      dropped by its owner; a published entry keeps its bytes and that decision, gains a pin when it is
      requested and loses one when a lease is returned; and it leaves only unpinned, by eviction or
      clearing, or with its last lease if it was not admitted. */
  ghost predicate Lives<K>(cfg: Config, w: World<K>, step: Step<K>, after: State<K>, key: K) {
    match (EntryOf(w.cache, key), EntryOf(after, key))
    case (None, None) => true
    case (None, Some(Loading(expected, resident))) =>
      step.Ask? && AsksFor(w, step.thread, key) && expected == ThreadPhase(w, step.thread).expected &&
      (resident <==> HeatOf(after, key) >= cfg.admitAfter)
    case (None, Some(Ready(_, _, _, _))) => false
    case (Some(Loading(_, _)), None) =>
      step.DropReservation? && Owner(ThreadPhase(w, step.thread)) && ThreadPhase(w, step.thread).key == key
    case (Some(Loading(expected, resident)), Some(Loading(expected', resident'))) =>
      expected' == expected && resident' == resident
    case (Some(Loading(expected, resident)), Some(Ready(bytes, pins, lastUsed, resident'))) =>
      step.Publish? && ThreadPhase(w, step.thread) == Loader(key, expected) && bytes == step.bytes &&
      |bytes| == expected && pins == 1 && lastUsed == after.tick && resident' == resident
    case (Some(Ready(_, pins, _, resident)), None) =>
      (pins == 0 && (step.ClearUnpinned? || (step.Ask? && key in step.victims))) ||
      (pins == 1 && !resident && ReturnsLease(w, step, key))
    case (Some(Ready(_, _, _, _)), Some(Loading(_, _))) => false
    case (Some(Ready(bytes, pins, lastUsed, resident)), Some(Ready(bytes', pins', lastUsed', resident'))) =>
      bytes' == bytes && resident' == resident &&
      ((pins' == pins && lastUsed' == lastUsed) ||
       (pins' == pins + 1 && lastUsed' == after.tick && Requests(w, step, key)) ||
       (pins' + 1 == pins && lastUsed' == lastUsed && ReturnsLease(w, step, key)))
  }

  lemma LookupLives<K(!new)>(cfg: Config, w: World<K>, step: Step<K>, key: K)
    requires step.Lookup?
    ensures Lives(cfg, w, step, Apply(cfg, w, step).cache, key)
  {}

  lemma AskFoundLives<K(!new)>(cfg: Config, w: World<K>, step: Step<K>, key: K)
    requires step.Ask? && ThreadPhase(w, step.thread).Asking? && ThreadPhase(w, step.thread).key in w.cache.entries
    ensures Lives(cfg, w, step, Apply(cfg, w, step).cache, key)
  {
    FoundEntries(cfg, w, step.thread, step.lease, step.victims, key);
  }

  /** A request that finds its entry touches no other, and only adds a pin to its own. */
  lemma FoundEntries<K(!new)>(cfg: Config, w: World<K>, t: nat, lease: nat, victims: seq<K>, key: K)
    requires ThreadPhase(w, t).Asking? && ThreadPhase(w, t).key in w.cache.entries
    ensures var after := Apply(cfg, w, Ask(t, lease, victims)).cache;
            EntryOf(after, key) == EntryOf(w.cache, key) ||
            (AsksFor(w, t, key) && IsReady(w.cache, key) && IsReady(after, key) &&
             var e := w.cache.entries[key];
             after.entries[key] == Ready(e.bytes, e.pins + 1, after.tick, e.resident))
  {}

  /** What a miss leaves behind: the counted request, other entries as they were or evicted
      unpinned, and at most a new load of the key. */
  ghost predicate AfterMiss<K>(cfg: Config, s: State<K>, key: K, expected: nat, victims: seq<K>, after: State<K>,
                               other: K)
  {
    after.heat == Heated(s, key).heat &&
    if other == key then EntryOf(after, key) in {None, Some(Loading(expected, HeatOf(after, key) >= cfg.admitAfter))}
    else EntryOf(after, other) == EntryOf(s, other) ||
         (EntryOf(after, other) == None && other in victims && Unpinned(s, other))
  }

  lemma MissLeaves<K(!new)>(cfg: Config, w: World<K>, t: nat, key: K, expected: nat, victims: seq<K>, other: K)
    requires Accounted(w.cache) && key !in w.cache.entries && EvictsIfMissing(cfg, w.cache, key, expected, victims)
    ensures var after := MissedWorld(cfg, w.(cache := Ticked(w.cache)), t, key, expected, victims).cache;
            AfterMiss(cfg, w.cache, key, expected, victims, after, other)
  {
    if Committed(w.cache, expected) <= USIZE_MAX {
      var end := Evicted(cfg, w.cache, key, expected, victims, other);
    }
  }

  lemma Evicted<K(!new)>(cfg: Config, s: State<K>, key: K, expected: nat, victims: seq<K>, other: K)
    returns (end: State<K>)
    requires Accounted(s) && key !in s.entries && Committed(s, expected) <= USIZE_MAX
    requires EvictsIfMissing(cfg, s, key, expected, victims)
    ensures end == EvictAll(Heated(Ticked(s), key), victims)
    ensures end.heat == Heated(s, key).heat && EntryOf(end, key) == None
    ensures EntryOf(end, other) == EntryOf(s, other) ||
            (EntryOf(end, other) == None && other in victims && Unpinned(s, other))
  {
    var hot := Heated(Ticked(s), key);
    RunRemovesExactlyVictims(hot, cfg.capacity, expected, victims);
    assert other in victims ==> Unpinned(hot, other);
    end := EvictAll(hot, victims);
  }

  lemma MissLives<K(!new)>(cfg: Config, w: World<K>, step: Step<K>, after: State<K>, key: K)
    requires step.Ask? && ThreadPhase(w, step.thread).Asking? && ThreadPhase(w, step.thread).key !in w.cache.entries
    requires var p := ThreadPhase(w, step.thread);
             AfterMiss(cfg, w.cache, p.key, p.expected, step.victims, after, key)
    ensures Lives(cfg, w, step, after, key)
  {}

  lemma AskMissLives<K(!new)>(cfg: Config, w: World<K>, step: Step<K>, key: K)
    requires Accounted(w.cache) && Enabled(cfg, w, step) && step.Ask?
    requires ThreadPhase(w, step.thread).key !in w.cache.entries
    ensures Lives(cfg, w, step, Apply(cfg, w, step).cache, key)
  {
    var p := ThreadPhase(w, step.thread);
    AskMissApplied(cfg, w, step.thread, step.lease, step.victims);
    MissLeaves(cfg, w, step.thread, p.key, p.expected, step.victims, key);
    MissLives(cfg, w, step, Apply(cfg, w, step).cache, key);
  }

  lemma PublishLives<K(!new)>(cfg: Config, w: World<K>, step: Step<K>, key: K)
    requires Enabled(cfg, w, step) && step.Publish?
    ensures Lives(cfg, w, step, Apply(cfg, w, step).cache, key)
  {}

  lemma DropLives<K(!new)>(cfg: Config, w: World<K>, step: Step<K>, key: K)
    requires Inv(cfg, w) && Enabled(cfg, w, step) && (step.DropReservation? || step.DropLease?)
    ensures Lives(cfg, w, step, Apply(cfg, w, step).cache, key)
  {
    if step.DropReservation? {
      OwnerFindsEntry(cfg, w, step.thread);
    } else {
      LeasePinsEntry(cfg, w, step.lease);
      ReturnLives(cfg, w, step, key);
    }
  }

  lemma ReturnLives<K(!new)>(cfg: Config, w: World<K>, step: Step<K>, key: K)
    requires step.DropLease? && step.lease in w.leases
    requires IsReady(w.cache, w.leases[step.lease].key) && w.cache.entries[w.leases[step.lease].key].pins > 0
    ensures Lives(cfg, w, step, Apply(cfg, w, step).cache, key)
  {}

  /** In every reachable world, whatever happens to an entry is one of these. */
  lemma EntriesLive<K(!new)>(cfg: Config, w: World<K>, step: Step<K>, key: K)
    requires ValidConfig(cfg) && Reachable(cfg, w) && Enabled(cfg, w, step)
    ensures Lives(cfg, w, step, Apply(cfg, w, step).cache, key)
  {
    ReachableInv(cfg, w);
    match step {
      case Lookup(_, _) => LookupLives(cfg, w, step, key);
      case Ask(t, _, _) =>
        if ThreadPhase(w, t).key in w.cache.entries {
          AskFoundLives(cfg, w, step, key);
        } else {
          AskMissLives(cfg, w, step, key);
        }
      case Publish(_, _, _) => PublishLives(cfg, w, step, key);
      case DropReservation(_) => DropLives(cfg, w, step, key);
      case DropLease(_) => DropLives(cfg, w, step, key);
      case ClearUnpinned => ClearedEntries(w.cache);
      case Call(_, _, _) =>
      case Wake(_) =>
      case LoaderFails(_) =>
      case MergeHeat(_, _) =>
    }
  }

  // --- the admission decision --------------------------------------------------------------

  /** `key` is present before the run and after each of its steps. */
  ghost predicate Stays<K>(cfg: Config, w: World<K>, steps: seq<Step<K>>, key: K)
    decreases |steps|
  {
    key in w.cache.entries && (steps == [] || Stays(cfg, Apply(cfg, w, steps[0]), steps[1..], key))
  }

  lemma ReachableNext<K(!new)>(cfg: Config, w: World<K>, step: Step<K>)
    requires Reachable(cfg, w) && Enabled(cfg, w, step)
    ensures Reachable(cfg, Apply(cfg, w, step))
  {
    var steps :| IsRun(cfg, Empty(), steps) && After(cfg, Empty(), steps) == w;
    OneStepLonger(cfg, Empty(), steps, step);
  }

  lemma {:induction false} OneStepLonger<K(!new)>(cfg: Config, w: World<K>, steps: seq<Step<K>>, step: Step<K>)
    requires IsRun(cfg, w, steps) && Enabled(cfg, After(cfg, w, steps), step)
    ensures IsRun(cfg, w, steps + [step])
    ensures After(cfg, w, steps + [step]) == Apply(cfg, After(cfg, w, steps), step)
    decreases |steps|
  {
    if steps == [] {
      assert [step][1..] == [];
    } else {
      OneStepLonger(cfg, Apply(cfg, w, steps[0]), steps[1..], step);
      assert (steps + [step])[1..] == steps[1..] + [step];
    }
  }

  /** Nothing changes the admission decision of an entry that stays, publication included. */
  lemma {:induction false} AdmissionLasts<K(!new)>(cfg: Config, w: World<K>, steps: seq<Step<K>>, key: K)
    requires ValidConfig(cfg) && Reachable(cfg, w) && IsRun(cfg, w, steps) && Stays(cfg, w, steps, key)
    ensures var end := After(cfg, w, steps);
            Reachable(cfg, end) && key in end.cache.entries &&
            end.cache.entries[key].resident == w.cache.entries[key].resident
    decreases |steps|
  {
    if steps != [] {
      EntriesLive(cfg, w, steps[0], key);
      ReachableNext(cfg, w, steps[0]);
      AdmissionLasts(cfg, Apply(cfg, w, steps[0]), steps[1..], key);
    }
  }

  /** From the request that starts a load to the return of the last lease, whatever happens in
      between while the entry stays: the entry remains, ready and unpinned with the bytes of that
      lease, if and only if its key had been requested often enough when the load began. */
  lemma LoadDecidesStay<K(!new)>(cfg: Config, w: World<K>, ask: Step<K>, steps: seq<Step<K>>, key: K, id: nat)
    requires ValidConfig(cfg) && Reachable(cfg, w) && Enabled(cfg, w, ask)
    requires ask.Ask? && AsksFor(w, ask.thread, key) && key !in w.cache.entries
    requires var begun := Apply(cfg, w, ask);
             IsRun(cfg, begun, steps) && Stays(cfg, begun, steps, key) &&
             id in After(cfg, begun, steps).leases && LeasesOn(After(cfg, begun, steps).leases, key) == {id}
    ensures var begun := Apply(cfg, w, ask);
            var end := After(cfg, begun, steps);
            var after := Apply(cfg, end, DropLease(id)).cache;
            (key in after.entries <==> HeatOf(begun.cache, key) >= cfg.admitAfter) &&
            (key in after.entries ==> Unpinned(after, key) && after.entries[key].bytes == end.leases[id].bytes)
  {
    var begun := Apply(cfg, w, ask);
    EntriesLive(cfg, w, ask, key);
    ReachableNext(cfg, w, ask);
    AdmissionLasts(cfg, begun, steps, key);
    assert id in LeasesOn(After(cfg, begun, steps).leases, key);
    LastLeaseDecides(cfg, After(cfg, begun, steps), id);
  }

  // --- what a request is answered --------------------------------------------------------------

  /** A lookup leases a ready entry, unless its pin count is exhausted, and nothing else. */
  lemma LookupAnswered<K(!new)>(cfg: Config, w: World<K>, key: K, lease: nat)
    ensures var after := Apply(cfg, w, Lookup(key, lease));
            var e := EntryOf(w.cache, key);
            after.threads == w.threads &&
            after.leases == if e.Some? && e.value.Ready? && e.value.pins < USIZE_MAX
                            then w.leases[lease := Lease(key, e.value.bytes)] else w.leases
  {}

  /** A request for an entry that is there is served at once; one for an entry being loaded waits;
      one for a missing entry becomes its loader if and only if the entry fits beside what is pinned
      and in flight (and the byte sum does not overflow). */
  lemma AskAnswered<K(!new)>(cfg: Config, w: World<K>, t: nat, lease: nat, victims: seq<K>)
    requires ValidConfig(cfg) && Reachable(cfg, w) && Enabled(cfg, w, Ask(t, lease, victims))
    ensures var after := Apply(cfg, w, Ask(t, lease, victims));
            var p := ThreadPhase(w, t);
            match EntryOf(w.cache, p.key)
            case Some(Ready(bytes, pins, _, _)) =>
              ThreadPhase(after, t) == Idle &&
              after.leases == if pins < USIZE_MAX then w.leases[lease := Lease(p.key, bytes)] else w.leases
            case Some(Loading(_, _)) =>
              ThreadPhase(after, t) == Asleep(p.key, p.expected, false) && after.leases == w.leases
            case None =>
              after.leases == w.leases &&
              ThreadPhase(after, t) ==
              if Admissible(cfg, w.cache, p.expected) then Loader(p.key, p.expected) else Idle
  {
    var p := ThreadPhase(w, t);
    if p.key !in w.cache.entries {
      ReachableInv(cfg, w);
      AskMissApplied(cfg, w, t, lease, victims);
      MissAnswered(cfg, w, t, p.key, p.expected, victims);
    }
  }

  lemma MissAnswered<K(!new)>(cfg: Config, w: World<K>, t: nat, key: K, expected: nat, victims: seq<K>)
    requires Accounted(w.cache) && key !in w.cache.entries && EvictsIfMissing(cfg, w.cache, key, expected, victims)
    ensures var after := MissedWorld(cfg, w.(cache := Ticked(w.cache)), t, key, expected, victims);
            after.leases == w.leases &&
            ThreadPhase(after, t) == if Admissible(cfg, w.cache, expected) then Loader(key, expected) else Idle
  {
    if Committed(w.cache, expected) <= USIZE_MAX {
      ReserveSucceedsIff(Heated(Ticked(w.cache), key), cfg.capacity, expected, victims);
    }
  }

  ghost predicate Admissible<K>(cfg: Config, s: State<K>, expected: nat) {
    s.used + s.reserved + expected <= USIZE_MAX && Sum(s.entries, PinnedBytes) + s.reserved + expected <= cfg.capacity
  }

  // --- request counts ----------------------------------------------------------------------------

  /** The step is a request for `key` that does not find it. */
  predicate Misses<K(==)>(w: World<K>, step: Step<K>, key: K) {
    step.Ask? && AsksFor(w, step.thread, key) && key !in w.cache.entries
  }

  lemma HeatStep<K(!new)>(cfg: Config, w: World<K>, step: Step<K>, key: K)
    requires Accounted(w.cache) && Enabled(cfg, w, step)
    ensures HeatMoves(w, step, key, HeatOf(Apply(cfg, w, step).cache, key))
  {
    if step.Ask? && ThreadPhase(w, step.thread).key !in w.cache.entries {
      var p := ThreadPhase(w, step.thread);
      AskMissApplied(cfg, w, step.thread, step.lease, step.victims);
      MissLeaves(cfg, w, step.thread, p.key, p.expected, step.victims, key);
    }
  }

  /** A missing request counts once, an imported count replaces a smaller one. */
  ghost predicate HeatMoves<K>(w: World<K>, step: Step<K>, key: K, after: nat) {
    var before := HeatOf(w.cache, key);
    if Misses(w, step, key) then after == if before < U64_MAX then before + 1 else before
    else if step.MergeHeat? && step.key == key
    then after == if before < step.requests then step.requests else before
    else after == before
  }

  ghost function MissCount<K>(cfg: Config, w: World<K>, steps: seq<Step<K>>, key: K): nat
    decreases |steps|
  {
    if steps == [] then 0
    else (if Misses(w, steps[0], key) then 1 else 0) + MissCount(cfg, Apply(cfg, w, steps[0]), steps[1..], key)
  }

  /** The count of a key is the number of requests that missed it, up to the largest 64-bit value,
      as long as no count is imported for it. */
  lemma {:induction false} HeatCountsMisses<K(!new)>(cfg: Config, w: World<K>, steps: seq<Step<K>>, key: K)
    requires ValidConfig(cfg) && Inv(cfg, w) && IsRun(cfg, w, steps) && HeatOf(w.cache, key) <= U64_MAX
    requires forall i | 0 <= i < |steps| && steps[i].MergeHeat? :: steps[i].key != key
    ensures var total := HeatOf(w.cache, key) + MissCount(cfg, w, steps, key);
            HeatOf(After(cfg, w, steps).cache, key) == if total < U64_MAX then total else U64_MAX
    decreases |steps|
  {
    if steps != [] {
      HeatStep(cfg, w, steps[0], key);
      StepKeeps(cfg, w, steps[0]);
      assert forall i | 0 <= i < |steps[1..]| :: steps[1..][i] == steps[i + 1];
      HeatCountsMisses(cfg, Apply(cfg, w, steps[0]), steps[1..], key);
    }
  }
}
