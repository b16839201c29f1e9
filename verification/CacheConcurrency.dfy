/** The shared expert cache as a transition system. Each critical section under the mutex is
    one atomic step; between steps threads run loaders, hold leases or sleep on the condvar. */
module CacheConcurrency {
  import opened Common
  import opened CacheState
  import opened CacheEviction

  /** Where a thread is inside `get_or_try_insert`. `Loader` and `Dropping` both own an armed
      reservation; `Dropping` has failed and still has to run the reservation's destructor. */
  datatype Phase<K> =
    | Idle
    | Asking(key: K, expected: nat)
    | Asleep(key: K, expected: nat, notified: bool)
    | Loader(key: K, expected: nat)
    | Dropping(key: K, expected: nat)

  datatype Lease<K> = Lease(key: K, bytes: seq<byte>)

  datatype World<K> = World(cache: State<K>, threads: map<nat, Phase<K>>, leases: map<nat, Lease<K>>)

  /** Labels resolve every choice: which thread runs, the id of a new lease, the bytes a
      loader returns, and which of several equally old entries the eviction loop takes. */
  datatype Step<K> =
    | Lookup(key: K, lease: nat)
    | Call(thread: nat, key: K, expected: nat)
    | Ask(thread: nat, lease: nat, victims: seq<K>)
    | Wake(thread: nat)
    | Publish(thread: nat, bytes: seq<byte>, lease: nat)
    | LoaderFails(thread: nat)
    | DropReservation(thread: nat)
    | DropLease(lease: nat)
    | ClearUnpinned
    | MergeHeat(key: K, requests: nat)

  function ThreadPhase<K>(w: World<K>, t: nat): Phase<K> {
    if t in w.threads then w.threads[t] else Idle
  }

  /** What a pass of the retry loop evicts. Only a miss whose byte sum does not overflow gets as
      far as the eviction loop, which then runs to its end. */
  ghost predicate EvictsIfMissing<K(!new)>(cfg: Config, s: State<K>, key: K, expected: nat, victims: seq<K>) {
    key !in s.entries && Committed(s, expected) <= USIZE_MAX ==>
      CompleteRun(Heated(Ticked(s), key), cfg.capacity, expected, victims)
  }

  /** The parameter checks of `get_or_try_insert` pass before a thread starts asking. A wake-up
      may be spurious, so it does not need a notification. */
  ghost predicate Enabled<K(!new)>(cfg: Config, w: World<K>, step: Step<K>) {
    match step
    case Lookup(_, lease) => lease !in w.leases
    case Call(t, _, expected) => ThreadPhase(w, t).Idle? && 0 < expected <= cfg.capacity
    case Ask(t, lease, victims) =>
      ThreadPhase(w, t).Asking? && lease !in w.leases &&
      EvictsIfMissing(cfg, w.cache, ThreadPhase(w, t).key, ThreadPhase(w, t).expected, victims)
    case Wake(t) => ThreadPhase(w, t).Asleep?
    case Publish(t, bytes, lease) =>
      ThreadPhase(w, t).Loader? && |bytes| == ThreadPhase(w, t).expected && lease !in w.leases
    case LoaderFails(t) => ThreadPhase(w, t).Loader?
    case DropReservation(t) => ThreadPhase(w, t).Dropping?
    case DropLease(lease) => lease in w.leases
    case ClearUnpinned => true
    case MergeHeat(_, requests) => requests > 0
  }

  function NotifyAll<K>(threads: map<nat, Phase<K>>): map<nat, Phase<K>> {
    map t | t in threads :: if threads[t].Asleep? then threads[t].(notified := true) else threads[t]
  }

  ghost function Unpinnable<K>(s: State<K>): map<K, Entry> {
    map k | k in s.entries && Unpinned(s, k) :: s.entries[k]
  }

  ghost function Cleared<K>(s: State<K>): State<K> {
    s.(entries := s.entries - Unpinnable(s).Keys, used := SaturatingSub(s.used, Sum(Unpinnable(s), ReadyBytes)))
  }

  ghost function Apply<K>(cfg: Config, w: World<K>, step: Step<K>): World<K> {
    match step
    case Lookup(key, lease) =>
      var (s, outcome) := Get(w.cache, key);
      w.(cache := s, leases := if outcome.Leased? then w.leases[lease := Lease(key, outcome.bytes)] else w.leases)
    case Call(t, key, expected) => w.(threads := w.threads[t := Asking(key, expected)])
    case Ask(t, lease, victims) =>
      var p := ThreadPhase(w, t);
      if !p.Asking? then w else
      var (s, outcome) := CacheState.Ask(cfg, w.cache, p.key, p.expected, victims);
      (match outcome
       case Hit(bytes) => World(s, w.threads[t := Idle], w.leases[lease := Lease(p.key, bytes)])
       case MustWait => w.(cache := s, threads := w.threads[t := Asleep(p.key, p.expected, false)])
       case Reserved => w.(cache := s, threads := w.threads[t := Loader(p.key, p.expected)])
       case Failed(_) => w.(cache := s, threads := w.threads[t := Idle]))
    case Wake(t) =>
      var p := ThreadPhase(w, t);
      if p.Asleep? then w.(threads := w.threads[t := Asking(p.key, p.expected)]) else w
    case Publish(t, bytes, lease) =>
      var p := ThreadPhase(w, t);
      if !p.Loader? then w else
      var (s, failure) := CacheState.Publish(w.cache, p.key, bytes);
      if failure.Some? then w.(threads := w.threads[t := Dropping(p.key, p.expected)])
      else World(s, NotifyAll(w.threads[t := Idle]), w.leases[lease := Lease(p.key, bytes)])
    case LoaderFails(t) =>
      var p := ThreadPhase(w, t);
      if p.Loader? then w.(threads := w.threads[t := Dropping(p.key, p.expected)]) else w
    case DropReservation(t) =>
      var p := ThreadPhase(w, t);
      if !p.Dropping? then w else
      w.(cache := CacheState.DropReservation(w.cache, p.key, p.expected), threads := NotifyAll(w.threads[t := Idle]))
    case DropLease(lease) =>
      if lease !in w.leases then w else
      World(CacheState.DropLease(w.cache, w.leases[lease].key), NotifyAll(w.threads), w.leases - {lease})
    case ClearUnpinned => w.(cache := Cleared(w.cache))
    case MergeHeat(key, requests) =>
      w.(cache := WarmedBy(w.cache, key, requests))
  }

  // --- the invariant of every reachable world ------------------------------------------

  ghost function LeasesOn<K>(leases: map<nat, Lease<K>>, key: K): set<nat> {
    set id | id in leases && leases[id].key == key
  }

  /** Owns an armed reservation. */
  predicate Owner<K>(p: Phase<K>) {
    p.Loader? || p.Dropping?
  }

  /** used and reserved are exact, and together stay under the ceiling. */
  ghost predicate WithinCapacity<K>(cfg: Config, s: State<K>) {
    Accounted(s) && s.used + s.reserved <= cfg.capacity
  }

  /** An entry's pin count is the number of live leases on it, each showing the entry's bytes. */
  ghost predicate LeasesBacked<K(!new)>(w: World<K>) {
    (forall id | id in w.leases ::
       IsReady(w.cache, w.leases[id].key) && w.cache.entries[w.leases[id].key].bytes == w.leases[id].bytes) &&
    (forall k | k in w.cache.entries && w.cache.entries[k].Ready? :: w.cache.entries[k].pins == |LeasesOn(w.leases, k)|)
  }

  /** Reservation holders and Loading entries correspond one to one. */
  ghost predicate SingleFlight<K(!new)>(w: World<K>) {
    (forall t | t in w.threads && Owner(w.threads[t]) ::
       IsLoading(w.cache, w.threads[t].key) && w.cache.entries[w.threads[t].key].expected == w.threads[t].expected) &&
    (forall t, u | t in w.threads && u in w.threads && t != u && Owner(w.threads[t]) && Owner(w.threads[u]) ::
       w.threads[t].key != w.threads[u].key) &&
    (forall k | k in w.cache.entries && w.cache.entries[k].Loading? ::
       exists t | t in w.threads :: Owner(w.threads[t]) && w.threads[t].key == k)
  }

  /** A thread asleep on a key either still waits for a load in flight or has been notified. */
  ghost predicate NoLostWakeup<K>(w: World<K>) {
    forall t | t in w.threads && w.threads[t].Asleep? && !w.threads[t].notified :: IsLoading(w.cache, w.threads[t].key)
  }

  /** Only keys that were asked for often enough stay in the cache without a lease. */
  ghost predicate Admitted<K(!new)>(cfg: Config, s: State<K>) {
    (forall k | k in s.entries && s.entries[k].resident :: HeatOf(s, k) >= cfg.admitAfter) &&
    (forall k | k in s.entries && Unpinned(s, k) :: s.entries[k].resident)
  }

  ghost predicate Inv<K(!new)>(cfg: Config, w: World<K>) {
    WithinCapacity(cfg, w.cache) && LeasesBacked(w) && SingleFlight(w) && NoLostWakeup(w) && Admitted(cfg, w.cache)
  }

  /** A configuration that `CacheConfig::validate` accepts and that fits the machine word. */
  predicate ValidConfig(cfg: Config) {
    0 < cfg.capacity <= USIZE_MAX && 0 < cfg.admitAfter <= U64_MAX
  }

  function Empty<K>(): World<K> {
    World(State(map[], map[], 0, 0, 0), map[], map[])
  }
}
