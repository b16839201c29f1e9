/** The state guarded by the expert cache's mutex, and each critical section as a
    function from the state on entry to the state and outcome on exit. */
module CacheState {
  import opened Common

  datatype Config = Config(capacity: nat, admitAfter: nat)

  datatype Entry =
    | Loading(expected: nat, resident: bool)
    | Ready(bytes: seq<byte>, pins: nat, lastUsed: nat, resident: bool)

  datatype State<K> = State(
    entries: map<K, Entry>,
    heat: map<K, nat>,
    used: nat,
    reserved: nat,
    tick: nat)

  datatype CacheError =
    | EmptyEntry
    | EntryTooLarge
    | CapacityPinned
    | LoadedSizeMismatch
    | ReservationLost
    | ArithmeticOverflow

  function Ticked<K>(s: State<K>): State<K> {
    if s.tick >= U64_MAX then s else s.(tick := s.tick + 1)
  }

  function HeatOf<K>(s: State<K>, key: K): nat {
    if key in s.heat then s.heat[key] else 0
  }

  function Heated<K>(s: State<K>, key: K): State<K> {
    var h := HeatOf(s, key);
    s.(heat := s.heat[key := if h >= U64_MAX then h else h + 1])
  }

  /** An imported request count replaces a smaller one. */
  function WarmedBy<K>(s: State<K>, key: K, requests: nat): State<K> {
    var h := HeatOf(s, key);
    s.(heat := s.heat[key := if h < requests then requests else h])
  }

  predicate IsReady<K>(s: State<K>, key: K) {
    key in s.entries && s.entries[key].Ready?
  }

  predicate IsLoading<K>(s: State<K>, key: K) {
    key in s.entries && s.entries[key].Loading?
  }

  predicate Unpinned<K>(s: State<K>, key: K) {
    IsReady(s, key) && s.entries[key].pins == 0
  }

  function LastUsed<K>(s: State<K>, key: K): nat {
    if IsReady(s, key) then s.entries[key].lastUsed else 0
  }

  function Size<K>(s: State<K>, key: K): nat {
    if IsReady(s, key) then |s.entries[key].bytes| else 0
  }

  // --- lookups -------------------------------------------------------------------------

  datatype GetOutcome = Absent | Leased(bytes: seq<byte>) | PinOverflow

  function Pin<K>(s: State<K>, key: K): (State<K>, GetOutcome)
    requires IsReady(s, key)
  {
    var e := s.entries[key];
    if e.pins >= USIZE_MAX then (s, PinOverflow)
    else (s.(entries := s.entries[key := e.(pins := e.pins + 1, lastUsed := s.tick)]), Leased(e.bytes))
  }

  function Get<K>(s0: State<K>, key: K): (State<K>, GetOutcome) {
    var s := Ticked(s0);
    if IsReady(s, key) then Pin(s, key) else (s, Absent)
  }

  // --- eviction ------------------------------------------------------------------------

  function Committed<K>(s: State<K>, requested: nat): nat {
    s.used + s.reserved + requested
  }

  /** The victim `min_by_key` returns: some unpinned entry with the least `last_used`. */
  predicate Oldest<K>(s: State<K>, key: K) {
    Unpinned(s, key) &&
    forall k | k in s.entries && Unpinned(s, k) :: LastUsed(s, key) <= LastUsed(s, k)
  }

  function Evict<K>(s: State<K>, key: K): State<K>
    requires IsReady(s, key)
  {
    var n := Size(s, key);
    s.(entries := s.entries - {key}, used := if n <= s.used then s.used - n else s.used)
  }

  function EvictAll<K>(s: State<K>, victims: seq<K>): State<K>
    decreases |victims|
  {
    if victims == [] then s
    else if !IsReady(s, victims[0]) then s
    else EvictAll(Evict(s, victims[0]), victims[1..])
  }

  /** `victims` are the entries the eviction loop removes, in order, up to some iteration. */
  predicate EvictionRun<K>(s: State<K>, capacity: nat, requested: nat, victims: seq<K>)
    decreases |victims|
  {
    victims == [] ||
    (Committed(s, requested) > capacity && Oldest(s, victims[0]) &&
     EvictionRun(Evict(s, victims[0]), capacity, requested, victims[1..]))
  }

  /** The loop stops after `victims`: either the request fits or nothing is evictable. */
  ghost predicate CompleteRun<K(!new)>(s: State<K>, capacity: nat, requested: nat, victims: seq<K>) {
    EvictionRun(s, capacity, requested, victims) &&
    var end := EvictAll(s, victims);
    Committed(end, requested) <= capacity || forall k :: !Unpinned(end, k)
  }

  function Reserve<K>(s: State<K>, capacity: nat, requested: nat, victims: seq<K>): (State<K>, Option<CacheError>) {
    if Committed(s, requested) > USIZE_MAX then (s, Some(ArithmeticOverflow))
    else
      var end := EvictAll(s, victims);
      (end, if Committed(end, requested) <= capacity then None else Some(CapacityPinned))
  }

  // --- get_or_try_insert ---------------------------------------------------------------

  datatype AskOutcome = Hit(bytes: seq<byte>) | MustWait | Reserved | Failed(error: CacheError)

  /** One pass of the retry loop, up to the point where the lock is released. */
  function Ask<K>(cfg: Config, s0: State<K>, key: K, expected: nat, victims: seq<K>): (State<K>, AskOutcome) {
    var s := Ticked(s0);
    if IsReady(s, key) then
      var (s', outcome) := Pin(s, key);
      (s', if outcome.Leased? then Hit(outcome.bytes) else Failed(ArithmeticOverflow))
    else if IsLoading(s, key) then (s, MustWait)
    else
      var hot := Heated(s, key);
      var (end, failure) := Reserve(hot, cfg.capacity, expected, victims);
      if failure.Some? then (end, Failed(failure.value))
      else
        var entry := Loading(expected, HeatOf(hot, key) >= cfg.admitAfter);
        (end.(reserved := end.reserved + expected, entries := end.entries[key := entry]), Reserved)
  }

  /** The loader returned `bytes` of the promised length; install them and take the first pin. */
  function Publish<K>(s: State<K>, key: K, bytes: seq<byte>): (State<K>, Option<CacheError>) {
    var n := |bytes|;
    if !IsLoading(s, key) || s.entries[key].expected != n then (s, Some(ReservationLost))
    else if s.reserved < n || s.used + n > USIZE_MAX then (s, Some(ArithmeticOverflow))
    else
      var t := Ticked(s.(reserved := s.reserved - n, used := s.used + n));
      (t.(entries := t.entries[key := Ready(bytes, 1, t.tick, s.entries[key].resident)]), None)
  }

  function SaturatingSub(a: nat, b: nat): nat {
    if b <= a then a - b else 0
  }

  /** Destructor of an armed reservation. */
  function DropReservation<K>(s: State<K>, key: K, expected: nat): State<K> {
    if IsLoading(s, key) && s.entries[key].expected == expected
    then s.(entries := s.entries - {key}, reserved := SaturatingSub(s.reserved, expected))
    else s
  }

  /** Destructor of a lease: unpin, and remove an entry that was never admitted. */
  function DropLease<K>(s: State<K>, key: K): State<K> {
    if !IsReady(s, key) then s
    else
      var e := s.entries[key];
      var pins := SaturatingSub(e.pins, 1);
      if pins == 0 && !e.resident
      then s.(entries := s.entries - {key}, used := SaturatingSub(s.used, |e.bytes|))
      else s.(entries := s.entries[key := e.(pins := pins)])
  }

  // --- byte accounting -----------------------------------------------------------------

  function ReadyBytes(e: Entry): nat {
    if e.Ready? then |e.bytes| else 0
  }

  function LoadingBytes(e: Entry): nat {
    if e.Loading? then e.expected else 0
  }

  function PinnedBytes(e: Entry): nat {
    if e.Ready? && e.pins > 0 then |e.bytes| else 0
  }

  ghost function Pick<K>(keys: set<K>): (k: K)
    requires keys != {}
    ensures k in keys
  {
    var k :| k in keys; k
  }

  ghost function Sum<K>(m: map<K, Entry>, weight: Entry -> nat): nat
    decreases |m|
  {
    if m == map[] then 0
    else var k := Pick(m.Keys); weight(m[k]) + Sum(m - {k}, weight)
  }

  /** Removing any key, not only the one `Sum` happens to pick, removes exactly its weight. */
  lemma {:induction false} SumRemove<K>(m: map<K, Entry>, weight: Entry -> nat, key: K)
    requires key in m
    ensures Sum(m, weight) == weight(m[key]) + Sum(m - {key}, weight)
    decreases |m|
  {
    var k := Pick(m.Keys);
    if k != key {
      SumRemove(m - {k}, weight, key);
      SumRemove(m - {key}, weight, k);
      assert m - {k} - {key} == m - {key} - {k};
    }
  }

  lemma SumPut<K>(m: map<K, Entry>, weight: Entry -> nat, key: K, e: Entry)
    ensures Sum(m[key := e], weight) == weight(e) + Sum(m - {key}, weight)
  {
    SumRemove(m[key := e], weight, key);
    assert m[key := e] - {key} == m - {key};
  }

  lemma {:induction false} SumZero<K>(m: map<K, Entry>, weight: Entry -> nat)
    requires forall k | k in m :: weight(m[k]) == 0
    ensures Sum(m, weight) == 0
    decreases |m|
  {
    if m != map[] {
      SumZero(m - {Pick(m.Keys)}, weight);
    }
  }

  lemma {:induction false} SumBounded<K>(m: map<K, Entry>, lower: Entry -> nat, upper: Entry -> nat)
    requires forall k | k in m :: lower(m[k]) <= upper(m[k])
    ensures Sum(m, lower) <= Sum(m, upper)
    decreases |m|
  {
    if m != map[] {
      var k := Pick(m.Keys);
      SumBounded(m - {k}, lower, upper);
    }
  }

  lemma {:induction false} SumEqual<K>(m: map<K, Entry>, f: Entry -> nat, g: Entry -> nat)
    requires forall k | k in m :: f(m[k]) == g(m[k])
    ensures Sum(m, f) == Sum(m, g)
  {
    SumBounded(m, f, g);
    SumBounded(m, g, f);
  }

  /** The counters equal what the table really holds. */
  ghost predicate Accounted<K>(s: State<K>) {
    s.used == Sum(s.entries, ReadyBytes) && s.reserved == Sum(s.entries, LoadingBytes)
  }
}
