/** Every interleaving keeps the cache invariant: byte accounting, pins, single flight,
    admission and wake-ups. */
module CacheSafety {
  import opened Common
  import opened CacheState
  import opened CacheEviction
  import opened CacheConcurrency

  // --- one lease more, one lease less --------------------------------------------------

  lemma LeaseAdded<K>(leases: map<nat, Lease<K>>, id: nat, lease: Lease<K>, key: K)
    requires id !in leases
    ensures |LeasesOn(leases[id := lease], key)| == |LeasesOn(leases, key)| + if key == lease.key then 1 else 0
  {
    assert LeasesOn(leases[id := lease], key) == LeasesOn(leases, key) + if key == lease.key then {id} else {};
  }

  lemma LeaseRemoved<K>(leases: map<nat, Lease<K>>, id: nat, key: K)
    requires id in leases
    ensures |LeasesOn(leases - {id}, key)| == |LeasesOn(leases, key)| - if key == leases[id].key then 1 else 0
  {
    assert LeasesOn(leases - {id}, key) == LeasesOn(leases, key) - {id};
  }

  /** Replacing one Ready entry by another of the same size leaves both totals alone. */
  lemma SameSizeSums<K>(m: map<K, Entry>, key: K, e: Entry)
    requires key in m && m[key].Ready? && e.Ready? && |m[key].bytes| == |e.bytes|
    ensures Sum(m[key := e], ReadyBytes) == Sum(m, ReadyBytes)
    ensures Sum(m[key := e], LoadingBytes) == Sum(m, LoadingBytes)
  {
    SumPut(m, ReadyBytes, key, e);
    SumRemove(m, ReadyBytes, key);
    SumPut(m, LoadingBytes, key, e);
    SumRemove(m, LoadingBytes, key);
  }

  ghost function PinnedWorld<K>(w: World<K>, key: K, id: nat): World<K>
    requires IsReady(w.cache, key)
  {
    World(Pin(w.cache, key).0, w.threads, w.leases[id := Lease(key, w.cache.entries[key].bytes)])
  }

  lemma PinBacked<K(!new)>(w: World<K>, key: K, id: nat)
    requires LeasesBacked(w) && id !in w.leases && IsReady(w.cache, key)
    requires Pin(w.cache, key).1.Leased?
    ensures LeasesBacked(PinnedWorld(w, key, id))
  {
    var w' := PinnedWorld(w, key, id);
    forall k | k in w'.cache.entries && w'.cache.entries[k].Ready?
      ensures w'.cache.entries[k].pins == |LeasesOn(w'.leases, k)|
    {
      LeaseAdded(w.leases, id, w'.leases[id], k);
    }
  }

  /** Changing Ready entries into Ready entries concerns no reservation and no sleeper. */
  lemma FlightUnaffected<K(!new)>(w: World<K>, w': World<K>)
    requires SingleFlight(w) && NoLostWakeup(w) && w'.threads == w.threads
    requires forall k | IsLoading(w'.cache, k) :: IsLoading(w.cache, k)
    requires forall k | IsLoading(w.cache, k) :: IsLoading(w'.cache, k) && w'.cache.entries[k] == w.cache.entries[k]
    ensures SingleFlight(w') && NoLostWakeup(w')
  {
    forall k | k in w'.cache.entries && w'.cache.entries[k].Loading?
      ensures exists t | t in w'.threads :: Owner(w'.threads[t]) && w'.threads[t].key == k
    {
      assert IsLoading(w.cache, k);
    }
  }

  /** Pinning a Ready entry for a new lease. */
  lemma PinKeeps<K(!new)>(cfg: Config, w: World<K>, key: K, id: nat)
    requires Inv(cfg, w) && id !in w.leases && IsReady(w.cache, key)
    requires Pin(w.cache, key).1.Leased?
    ensures Inv(cfg, PinnedWorld(w, key, id))
  {
    var w' := PinnedWorld(w, key, id);
    PinBacked(w, key, id);
    FlightUnaffected(w, w');
    SameSizeSums(w.cache.entries, key, w'.cache.entries[key]);
    PinAdmitted(cfg, w.cache, key);
  }

  lemma PinAdmitted<K(!new)>(cfg: Config, s: State<K>, key: K)
    requires Admitted(cfg, s) && IsReady(s, key)
    ensures Admitted(cfg, Pin(s, key).0)
  {
    var s' := Pin(s, key).0;
    assert forall k | k in s'.entries :: HeatOf(s', k) == HeatOf(s, k);
  }

  lemma TickKeeps<K(!new)>(cfg: Config, w: World<K>)
    requires Inv(cfg, w)
    ensures Inv(cfg, w.(cache := Ticked(w.cache)))
  {
    var w' := w.(cache := Ticked(w.cache));
  }

  lemma HeatKeeps<K(!new)>(cfg: Config, w: World<K>, heat: map<K, nat>)
    requires Inv(cfg, w)
    requires forall k :: HeatOf(w.cache.(heat := heat), k) >= HeatOf(w.cache, k)
    ensures Inv(cfg, w.(cache := w.cache.(heat := heat)))
  {
    var w' := w.(cache := w.cache.(heat := heat));
  }

  /** Changing only the phases of threads that own no reservation, and putting none to sleep
      without a load to wait for. */
  lemma PhasesKeep<K(!new)>(cfg: Config, w: World<K>, threads: map<nat, Phase<K>>)
    requires Inv(cfg, w)
    requires forall t | t in w.threads && Owner(w.threads[t]) :: t in threads && threads[t] == w.threads[t]
    requires forall t | t in threads && Owner(threads[t]) :: t in w.threads && threads[t] == w.threads[t]
    requires forall t | t in threads && threads[t].Asleep? && !threads[t].notified :: IsLoading(w.cache, threads[t].key)
    ensures Inv(cfg, w.(threads := threads))
  {
    var w' := w.(threads := threads);
    forall k | k in w'.cache.entries && w'.cache.entries[k].Loading?
      ensures exists t | t in threads :: Owner(threads[t]) && threads[t].key == k
    {
      var t :| t in w.threads && Owner(w.threads[t]) && w.threads[t].key == k;
      assert t in threads && threads[t] == w.threads[t];
    }
  }

  /** Dropping unpinned entries, with the byte count following, is always safe. */
  lemma ShrinkKeeps<K(!new)>(cfg: Config, w: World<K>, s: State<K>)
    requires Inv(cfg, w)
    requires s.entries.Keys <= w.cache.entries.Keys && forall k | k in s.entries :: s.entries[k] == w.cache.entries[k]
    requires forall k | k in w.cache.entries && k !in s.entries :: Unpinned(w.cache, k)
    requires s == w.cache.(entries := s.entries, used := s.used) && Accounted(s)
    ensures Inv(cfg, w.(cache := s))
  {
    SubsetSums(w.cache.entries, s.entries);
    ShrinkBacked(w, s);
    FlightUnaffected(w, w.(cache := s));
    ShrinkAdmitted(cfg, w.cache, s);
  }

  lemma ShrinkBacked<K(!new)>(w: World<K>, s: State<K>)
    requires LeasesBacked(w)
    requires s.entries.Keys <= w.cache.entries.Keys && forall k | k in s.entries :: s.entries[k] == w.cache.entries[k]
    requires forall k | k in w.cache.entries && k !in s.entries :: Unpinned(w.cache, k)
    ensures LeasesBacked(w.(cache := s))
  {
    forall id | id in w.leases ensures IsReady(s, w.leases[id].key) {
      var k := w.leases[id].key;
      assert id in LeasesOn(w.leases, k);
      assert w.cache.entries[k].pins > 0;
    }
  }

  lemma ShrinkAdmitted<K(!new)>(cfg: Config, s: State<K>, s': State<K>)
    requires Admitted(cfg, s) && s'.heat == s.heat
    requires s'.entries.Keys <= s.entries.Keys && forall k | k in s'.entries :: s'.entries[k] == s.entries[k]
    ensures Admitted(cfg, s')
  {
    assert forall k | k in s'.entries :: HeatOf(s', k) == HeatOf(s, k);
  }

  lemma {:induction false} SubsetSums<K>(big: map<K, Entry>, small: map<K, Entry>)
    requires small.Keys <= big.Keys && forall k | k in small :: small[k] == big[k]
    ensures Sum(small, ReadyBytes) <= Sum(big, ReadyBytes)
    ensures Sum(small, LoadingBytes) <= Sum(big, LoadingBytes)
    decreases |big.Keys|
  {
    if small == map[] {
    } else {
      var k := Pick(small.Keys);
      SumRemove(big, ReadyBytes, k);
      SumRemove(big, LoadingBytes, k);
      SumRemove(small, ReadyBytes, k);
      SumRemove(small, LoadingBytes, k);
      assert (big - {k}).Keys == big.Keys - {k};
      SubsetSums(big - {k}, small - {k});
    }
  }

  // --- a load starts, ends well, or ends badly -----------------------------------------

  ghost function LoadingWorld<K>(w: World<K>, t: nat, key: K, expected: nat, resident: bool): World<K> {
    w.(cache := w.cache.(reserved := w.cache.reserved + expected,
                         entries := w.cache.entries[key := Loading(expected, resident)]),
       threads := w.threads[t := Loader(key, expected)])
  }

  lemma StartLoadFlight<K(!new)>(w: World<K>, t: nat, key: K, expected: nat, resident: bool)
    requires SingleFlight(w) && NoLostWakeup(w) && key !in w.cache.entries && ThreadPhase(w, t).Asking?
    ensures SingleFlight(LoadingWorld(w, t, key, expected, resident)) &&
            NoLostWakeup(LoadingWorld(w, t, key, expected, resident))
  {
    var w' := LoadingWorld(w, t, key, expected, resident);
    forall k | k in w'.cache.entries && w'.cache.entries[k].Loading?
      ensures exists u | u in w'.threads :: Owner(w'.threads[u]) && w'.threads[u].key == k
    {
      if k == key {
        assert Owner(w'.threads[t]);
      } else {
        assert k in w.cache.entries;
        var u :| u in w.threads && Owner(w.threads[u]) && w.threads[u].key == k;
        assert u in w'.threads && w'.threads[u] == w.threads[u];
      }
    }
  }

  lemma StartLoadAccounts<K(!new)>(s: State<K>, key: K, expected: nat, resident: bool)
    requires Accounted(s) && key !in s.entries
    ensures Accounted(s.(reserved := s.reserved + expected, entries := s.entries[key := Loading(expected, resident)]))
  {
    SumPut(s.entries, ReadyBytes, key, Loading(expected, resident));
    SumPut(s.entries, LoadingBytes, key, Loading(expected, resident));
    assert s.entries - {key} == s.entries;
  }

  lemma StartLoadKeeps<K(!new)>(cfg: Config, w: World<K>, t: nat, key: K, expected: nat, resident: bool)
    requires Inv(cfg, w) && key !in w.cache.entries
    requires ThreadPhase(w, t).Asking?
    requires w.cache.used + w.cache.reserved + expected <= cfg.capacity
    requires resident ==> HeatOf(w.cache, key) >= cfg.admitAfter
    ensures Inv(cfg, LoadingWorld(w, t, key, expected, resident))
  {
    StartLoadFlight(w, t, key, expected, resident);
    StartLoadAccounts(w.cache, key, expected, resident);
    StartLoadBacked(w, t, key, expected, resident);
    StartLoadAdmitted(cfg, w.cache, key, expected, resident);
  }

  lemma StartLoadBacked<K(!new)>(w: World<K>, t: nat, key: K, expected: nat, resident: bool)
    requires LeasesBacked(w) && key !in w.cache.entries
    ensures LeasesBacked(LoadingWorld(w, t, key, expected, resident))
  {
    var w' := LoadingWorld(w, t, key, expected, resident);
    assert forall id | id in w.leases :: w.leases[id].key != key;
  }

  lemma StartLoadAdmitted<K(!new)>(cfg: Config, s: State<K>, key: K, expected: nat, resident: bool)
    requires Admitted(cfg, s) && (resident ==> HeatOf(s, key) >= cfg.admitAfter)
    ensures Admitted(cfg, s.(reserved := s.reserved + expected,
                             entries := s.entries[key := Loading(expected, resident)]))
  {
    var s' := s.(reserved := s.reserved + expected, entries := s.entries[key := Loading(expected, resident)]);
    assert forall k | k in s'.entries :: HeatOf(s', k) == HeatOf(s, k);
  }

  /** The owner of a reservation always finds its entry, and no counter can underflow. */
  lemma OwnerFindsEntry<K(!new)>(cfg: Config, w: World<K>, t: nat)
    requires Inv(cfg, w) && Owner(ThreadPhase(w, t))
    ensures var p := ThreadPhase(w, t);
            IsLoading(w.cache, p.key) && w.cache.entries[p.key].expected == p.expected &&
            p.expected <= w.cache.reserved && w.cache.used + p.expected <= cfg.capacity
  {
    SumRemove(w.cache.entries, LoadingBytes, ThreadPhase(w, t).key);
  }

  /** Removing the reservation of thread `t`: its entry becomes `e`, or disappears. */
  lemma ReleaseKeepsFlight<K(!new)>(w: World<K>, t: nat, s: State<K>)
    requires SingleFlight(w) && Owner(ThreadPhase(w, t))
    requires !IsLoading(s, ThreadPhase(w, t).key)
    requires forall k | k != ThreadPhase(w, t).key :: k in s.entries <==> k in w.cache.entries
    requires forall k | k != ThreadPhase(w, t).key && k in s.entries && k in w.cache.entries ::
               s.entries[k] == w.cache.entries[k]
    ensures SingleFlight(World(s, NotifyAll(w.threads[t := Idle]), w.leases))
  {
    var key := ThreadPhase(w, t).key;
    var threads := NotifyAll(w.threads[t := Idle]);
    assert forall u | u in threads && Owner(threads[u]) :: u in w.threads && u != t && threads[u] == w.threads[u];
    forall k | k in s.entries && s.entries[k].Loading?
      ensures exists u | u in threads :: Owner(threads[u]) && threads[u].key == k
    {
      assert k != key && k in w.cache.entries && w.cache.entries[k].Loading?;
      var u :| u in w.threads && Owner(w.threads[u]) && w.threads[u].key == k;
      assert u != t && u in threads && threads[u] == w.threads[u];
    }
  }

  lemma NoLeaseWhileLoading<K(!new)>(w: World<K>, key: K)
    requires LeasesBacked(w) && !IsReady(w.cache, key)
    ensures LeasesOn(w.leases, key) == {}
  {
    forall id | id in w.leases ensures w.leases[id].key != key {
      assert IsReady(w.cache, w.leases[id].key);
    }
  }

  /** Publication moves exactly the reserved bytes into the used ones. */
  lemma PublishAccounts<K>(s: State<K>, key: K, bytes: seq<byte>)
    requires Accounted(s) && IsLoading(s, key) && s.entries[key].expected == |bytes|
    requires s.used + |bytes| <= USIZE_MAX
    ensures var (s', failure) := CacheState.Publish(s, key, bytes);
            failure == None && Accounted(s') && s'.used + s'.reserved == s.used + s.reserved
  {
    SumRemove(s.entries, LoadingBytes, key);
    SumRemove(s.entries, ReadyBytes, key);
    var s' := CacheState.Publish(s, key, bytes).0;
    var e := s'.entries[key];
    SumPut(s.entries, ReadyBytes, key, e);
    SumPut(s.entries, LoadingBytes, key, e);
    assert s'.entries == s.entries[key := e];
  }

  lemma PublishBacked<K(!new)>(w: World<K>, key: K, bytes: seq<byte>, id: nat, s: State<K>, threads: map<nat, Phase<K>>)
    requires LeasesBacked(w) && id !in w.leases && IsLoading(w.cache, key)
    requires (s, None) == CacheState.Publish(w.cache, key, bytes)
    ensures LeasesBacked(World(s, threads, w.leases[id := Lease(key, bytes)]))
  {
    NoLeaseWhileLoading(w, key);
    var w' := World(s, threads, w.leases[id := Lease(key, bytes)]);
    forall k | k in s.entries && s.entries[k].Ready? ensures s.entries[k].pins == |LeasesOn(w'.leases, k)| {
      LeaseAdded(w.leases, id, w'.leases[id], k);
    }
  }

  lemma PublishKeeps<K(!new)>(cfg: Config, w: World<K>, t: nat, bytes: seq<byte>, id: nat)
    requires ValidConfig(cfg) && Inv(cfg, w) && id !in w.leases
    requires ThreadPhase(w, t).Loader? && |bytes| == ThreadPhase(w, t).expected
    ensures CacheState.Publish(w.cache, ThreadPhase(w, t).key, bytes).1 == None
    ensures Inv(cfg, Apply(cfg, w, Publish(t, bytes, id)))
  {
    var p := ThreadPhase(w, t);
    OwnerFindsEntry(cfg, w, t);
    PublishAccounts(w.cache, p.key, bytes);
    var s := CacheState.Publish(w.cache, p.key, bytes).0;
    ReleaseKeepsFlight(w, t, s);
    PublishBacked(w, p.key, bytes, id, s, NotifyAll(w.threads[t := Idle]));
    PublishAdmitted(cfg, w.cache, p.key, bytes);
    assert NoLostWakeup(Apply(cfg, w, Publish(t, bytes, id)));
  }

  lemma PublishAdmitted<K(!new)>(cfg: Config, s: State<K>, key: K, bytes: seq<byte>)
    requires Admitted(cfg, s) && IsLoading(s, key) && CacheState.Publish(s, key, bytes).1 == None
    ensures Admitted(cfg, CacheState.Publish(s, key, bytes).0)
  {
    var s' := CacheState.Publish(s, key, bytes).0;
    assert forall k | k in s'.entries :: HeatOf(s', k) == HeatOf(s, k);
  }

  lemma DropReservationKeeps<K(!new)>(cfg: Config, w: World<K>, t: nat)
    requires Inv(cfg, w) && ThreadPhase(w, t).Dropping?
    ensures Inv(cfg, Apply(cfg, w, DropReservation(t)))
  {
    var p := ThreadPhase(w, t);
    OwnerFindsEntry(cfg, w, t);
    var s := CacheState.DropReservation(w.cache, p.key, p.expected);
    var w' := Apply(cfg, w, DropReservation(t));
    SumRemove(w.cache.entries, ReadyBytes, p.key);
    SumRemove(w.cache.entries, LoadingBytes, p.key);
    ReleaseKeepsFlight(w, t, s);
    forall id | id in w.leases ensures IsReady(s, w.leases[id].key) {
      NoLeaseWhileLoading(w, p.key);
      assert id !in LeasesOn(w.leases, p.key);
    }
    assert LeasesBacked(w') && NoLostWakeup(w') && Admitted(cfg, s);
  }

  // --- a lease is returned -------------------------------------------------------------

  /** A live lease keeps its entry present, pinned and paid for. */
  lemma LeasePinsEntry<K(!new)>(cfg: Config, w: World<K>, id: nat)
    requires Inv(cfg, w) && id in w.leases
    ensures var key := w.leases[id].key;
            IsReady(w.cache, key) && w.cache.entries[key].pins > 0 &&
            |w.cache.entries[key].bytes| <= w.cache.used
  {
    assert id in LeasesOn(w.leases, w.leases[id].key);
    SumRemove(w.cache.entries, ReadyBytes, w.leases[id].key);
  }

  lemma DropLeaseBacked<K(!new)>(cfg: Config, w: World<K>, id: nat)
    requires Inv(cfg, w) && id in w.leases
    ensures LeasesBacked(Apply(cfg, w, DropLease(id)))
  {
    var key := w.leases[id].key;
    var w' := Apply(cfg, w, DropLease(id));
    LeasePinsEntry(cfg, w, id);
    forall k | k in w'.cache.entries && w'.cache.entries[k].Ready?
      ensures w'.cache.entries[k].pins == |LeasesOn(w'.leases, k)|
    {
      LeaseRemoved(w.leases, id, k);
    }
    if key !in w'.cache.entries {
      LeaseRemoved(w.leases, id, key);
      assert LeasesOn(w'.leases, key) == {};
    }
    forall j | j in w'.leases
      ensures IsReady(w'.cache, w'.leases[j].key) && w'.cache.entries[w'.leases[j].key].bytes == w'.leases[j].bytes
    {
      assert j in LeasesOn(w'.leases, w'.leases[j].key);
    }
  }

  lemma DropLeaseAccounts<K(!new)>(s: State<K>, key: K)
    requires Accounted(s) && IsReady(s, key)
    ensures Accounted(CacheState.DropLease(s, key))
    ensures CacheState.DropLease(s, key).used <= s.used && CacheState.DropLease(s, key).reserved == s.reserved
  {
    SumRemove(s.entries, ReadyBytes, key);
    SumRemove(s.entries, LoadingBytes, key);
    var s' := CacheState.DropLease(s, key);
    if key in s'.entries {
      SameSizeSums(s.entries, key, s'.entries[key]);
    }
  }

  lemma DropLeaseFlight<K(!new)>(cfg: Config, w: World<K>, id: nat)
    requires SingleFlight(w) && NoLostWakeup(w) && id in w.leases && IsReady(w.cache, w.leases[id].key)
    ensures SingleFlight(Apply(cfg, w, DropLease(id))) && NoLostWakeup(Apply(cfg, w, DropLease(id)))
  {
    var s := CacheState.DropLease(w.cache, w.leases[id].key);
    FlightUnaffected(w, w.(cache := s));
    PhaseFlight(w.(cache := s));
  }

  lemma DropLeaseAdmitted<K(!new)>(cfg: Config, s: State<K>, key: K)
    requires Admitted(cfg, s) && IsReady(s, key)
    ensures Admitted(cfg, CacheState.DropLease(s, key))
  {
    var s' := CacheState.DropLease(s, key);
    assert forall k | k in s'.entries :: HeatOf(s', k) == HeatOf(s, k);
  }

  lemma DropLeaseKeeps<K(!new)>(cfg: Config, w: World<K>, id: nat)
    requires Inv(cfg, w) && id in w.leases
    ensures Inv(cfg, Apply(cfg, w, DropLease(id)))
  {
    LeasePinsEntry(cfg, w, id);
    DropLeaseBacked(cfg, w, id);
    DropLeaseAccounts(w.cache, w.leases[id].key);
    DropLeaseFlight(cfg, w, id);
    DropLeaseAdmitted(cfg, w.cache, w.leases[id].key);
  }

  /** Notifying everyone changes no reservation. */
  lemma PhaseFlight<K(!new)>(w: World<K>)
    requires SingleFlight(w)
    ensures SingleFlight(w.(threads := NotifyAll(w.threads))) && NoLostWakeup(w.(threads := NotifyAll(w.threads)))
  {
    var threads := NotifyAll(w.threads);
    forall k | k in w.cache.entries && w.cache.entries[k].Loading?
      ensures exists u | u in threads :: Owner(threads[u]) && threads[u].key == k
    {
      var u :| u in w.threads && Owner(w.threads[u]) && w.threads[u].key == k;
      assert u in threads && threads[u] == w.threads[u];
    }
  }

  // --- clearing ------------------------------------------------------------------------

  lemma {:induction false} SumSplit<K>(m: map<K, Entry>, part: map<K, Entry>, weight: Entry -> nat)
    requires part.Keys <= m.Keys && forall k | k in part :: part[k] == m[k]
    ensures Sum(m, weight) == Sum(part, weight) + Sum(m - part.Keys, weight)
    decreases |part|
  {
    if part == map[] {
      assert m - part.Keys == m;
    } else {
      var k := Pick(part.Keys);
      SumRemove(m, weight, k);
      SumRemove(part, weight, k);
      MinusOne(m, part, k);
      SumSplit(m - {k}, part - {k}, weight);
    }
  }

  lemma MinusOne<K>(m: map<K, Entry>, part: map<K, Entry>, k: K)
    requires k in part && part.Keys <= m.Keys
    ensures m - {k} - (part - {k}).Keys == m - part.Keys && |part - {k}| < |part|
  {
    assert (part - {k}).Keys == part.Keys - {k};
  }

  lemma ClearKeeps<K(!new)>(cfg: Config, w: World<K>)
    requires Inv(cfg, w)
    ensures Inv(cfg, Apply(cfg, w, ClearUnpinned))
    ensures Cleared(w.cache).used == w.cache.used - Sum(Unpinnable(w.cache), ReadyBytes)
    ensures forall k | k in w.cache.entries :: k in Cleared(w.cache).entries <==> !Unpinned(w.cache, k)
  {
    ClearAccounts(w.cache);
    ClearedEntries(w.cache);
    ClearInv(cfg, w);
  }

  lemma ClearInv<K(!new)>(cfg: Config, w: World<K>)
    requires Inv(cfg, w)
    ensures Inv(cfg, w.(cache := Cleared(w.cache)))
  {
    var s := ClearedState(w.cache);
    ShrinkKeeps(cfg, w, s);
  }

  lemma ClearedState<K(!new)>(before: State<K>) returns (after: State<K>)
    requires Accounted(before)
    ensures after == Cleared(before) && Accounted(after)
    ensures after == before.(entries := after.entries, used := after.used)
    ensures after.entries.Keys <= before.entries.Keys
    ensures forall k | k in after.entries :: after.entries[k] == before.entries[k]
    ensures forall k | k in before.entries && k !in after.entries :: Unpinned(before, k)
  {
    after := Cleared(before);
    ClearAccounts(before);
    ClearedEntries(before);
  }

  lemma ClearAccounts<K(!new)>(s: State<K>)
    requires Accounted(s)
    ensures Accounted(Cleared(s)) && Cleared(s).used == s.used - Sum(Unpinnable(s), ReadyBytes)
  {
    SumSplit(s.entries, Unpinnable(s), ReadyBytes);
    SumSplit(s.entries, Unpinnable(s), LoadingBytes);
    SumZero(Unpinnable(s), LoadingBytes);
  }

  lemma ClearedEntries<K(!new)>(s: State<K>)
    ensures Cleared(s).entries.Keys <= s.entries.Keys
    ensures forall k | k in Cleared(s).entries :: Cleared(s).entries[k] == s.entries[k]
    ensures forall k | k in s.entries :: k in Cleared(s).entries <==> !Unpinned(s, k)
  {
    assert forall k | k in s.entries :: k in Unpinnable(s).Keys <==> Unpinned(s, k);
  }

  // --- asking --------------------------------------------------------------------------

  lemma EvictKeeps<K(!new)>(cfg: Config, w: World<K>, requested: nat, victims: seq<K>)
    requires Inv(cfg, w) && EvictionRun(w.cache, cfg.capacity, requested, victims)
    ensures Inv(cfg, w.(cache := EvictAll(w.cache, victims)))
  {
    RunRemovesExactlyVictims(w.cache, cfg.capacity, requested, victims);
    ShrinkKeeps(cfg, w, EvictAll(w.cache, victims));
  }

  lemma AskHitKeeps<K(!new)>(cfg: Config, w: World<K>, t: nat, key: K, id: nat)
    requires Inv(cfg, w) && ThreadPhase(w, t).Asking? && id !in w.leases
    requires IsReady(w.cache, key) && Pin(w.cache, key).1.Leased?
    ensures Inv(cfg, PinnedWorld(w, key, id).(threads := w.threads[t := Idle]))
  {
    PinKeeps(cfg, w, key, id);
    PhasesKeep(cfg, PinnedWorld(w, key, id), w.threads[t := Idle]);
  }

  /** The entry is there: it is pinned, unless its pin count is at the machine's limit. */
  lemma AskReadyKeeps<K(!new)>(cfg: Config, w: World<K>, t: nat, id: nat, victims: seq<K>)
    requires Inv(cfg, w) && Enabled(cfg, w, Ask(t, id, victims)) && IsReady(w.cache, ThreadPhase(w, t).key)
    ensures Inv(cfg, Apply(cfg, w, Ask(t, id, victims)))
  {
    var p := ThreadPhase(w, t);
    var ticked := w.(cache := Ticked(w.cache));
    TickKeeps(cfg, w);
    if Pin(ticked.cache, p.key).1.Leased? {
      AskHitKeeps(cfg, ticked, t, p.key, id);
      AskHitApplied(cfg, w, t, id, victims);
    } else {
      PhasesKeep(cfg, ticked, w.threads[t := Idle]);
    }
  }

  lemma AskHitApplied<K(!new)>(cfg: Config, w: World<K>, t: nat, id: nat, victims: seq<K>)
    requires ThreadPhase(w, t).Asking? && IsReady(w.cache, ThreadPhase(w, t).key)
    requires Pin(Ticked(w.cache), ThreadPhase(w, t).key).1.Leased?
    ensures var p, ticked := ThreadPhase(w, t), w.(cache := Ticked(w.cache));
            Apply(cfg, w, Ask(t, id, victims)) == PinnedWorld(ticked, p.key, id).(threads := w.threads[t := Idle])
  {
  }

  /** Somebody else is loading the entry: the thread falls asleep. */
  lemma AskLoadingKeeps<K(!new)>(cfg: Config, w: World<K>, t: nat, id: nat, victims: seq<K>)
    requires Inv(cfg, w) && Enabled(cfg, w, Ask(t, id, victims)) && IsLoading(w.cache, ThreadPhase(w, t).key)
    ensures Inv(cfg, Apply(cfg, w, Ask(t, id, victims)))
  {
    var p := ThreadPhase(w, t);
    var ticked := w.(cache := Ticked(w.cache));
    TickKeeps(cfg, w);
    PhasesKeep(cfg, ticked, w.threads[t := Asleep(p.key, p.expected, false)]);
  }

  lemma AskKeeps<K(!new)>(cfg: Config, w: World<K>, t: nat, id: nat, victims: seq<K>)
    requires ValidConfig(cfg) && Inv(cfg, w) && Enabled(cfg, w, Ask(t, id, victims))
    ensures Inv(cfg, Apply(cfg, w, Ask(t, id, victims)))
  {
    var p := ThreadPhase(w, t);
    if IsReady(w.cache, p.key) {
      AskReadyKeeps(cfg, w, t, id, victims);
    } else if IsLoading(w.cache, p.key) {
      AskLoadingKeeps(cfg, w, t, id, victims);
    } else {
      TickKeeps(cfg, w);
      AskMissKeeps(cfg, w.(cache := Ticked(w.cache)), t, p.key, p.expected, victims);
      AskMissApplied(cfg, w, t, id, victims);
    }
  }

  /** What a miss does, with the two ways it can end. */
  ghost function MissedWorld<K>(cfg: Config, w: World<K>, t: nat, key: K, expected: nat, victims: seq<K>): World<K> {
    var hot := Heated(w.cache, key);
    var (end, failure) := Reserve(hot, cfg.capacity, expected, victims);
    if failure.Some? then w.(cache := end, threads := w.threads[t := Idle])
    else LoadingWorld(w.(cache := end), t, key, expected, HeatOf(hot, key) >= cfg.admitAfter)
  }

  lemma AskMissApplied<K(!new)>(cfg: Config, w: World<K>, t: nat, id: nat, victims: seq<K>)
    requires ThreadPhase(w, t).Asking? && ThreadPhase(w, t).key !in w.cache.entries
    ensures var p, ticked := ThreadPhase(w, t), w.(cache := Ticked(w.cache));
            Apply(cfg, w, Ask(t, id, victims)) == MissedWorld(cfg, ticked, t, p.key, p.expected, victims)
  {
  }

  /** A miss after its key was heated: evict, then reserve or give up. */
  lemma MissKeeps<K(!new)>(cfg: Config, w: World<K>, t: nat, key: K, expected: nat, victims: seq<K>)
    requires ValidConfig(cfg) && Inv(cfg, w) && ThreadPhase(w, t).Asking? && key !in w.cache.entries
    requires EvictionRun(w.cache, cfg.capacity, expected, victims)
    ensures var end := w.(cache := EvictAll(w.cache, victims));
            Inv(cfg, end.(threads := w.threads[t := Idle])) &&
            (Committed(end.cache, expected) <= cfg.capacity ==>
               Inv(cfg, LoadingWorld(end, t, key, expected, HeatOf(w.cache, key) >= cfg.admitAfter)))
  {
    var end := w.(cache := EvictAll(w.cache, victims));
    EvictKeeps(cfg, w, expected, victims);
    RunRemovesExactlyVictims(w.cache, cfg.capacity, expected, victims);
    PhasesKeep(cfg, end, w.threads[t := Idle]);
    if Committed(end.cache, expected) <= cfg.capacity {
      StartLoadKeeps(cfg, end, t, key, expected, HeatOf(w.cache, key) >= cfg.admitAfter);
    }
  }

  lemma AskMissKeeps<K(!new)>(cfg: Config, w: World<K>, t: nat, key: K, expected: nat, victims: seq<K>)
    requires ValidConfig(cfg) && Inv(cfg, w) && ThreadPhase(w, t).Asking? && key !in w.cache.entries
    requires Committed(w.cache, expected) <= USIZE_MAX ==>
               CompleteRun(Heated(w.cache, key), cfg.capacity, expected, victims)
    ensures Inv(cfg, MissedWorld(cfg, w, t, key, expected, victims))
  {
    var hot := w.(cache := Heated(w.cache, key));
    HeatKeeps(cfg, w, hot.cache.heat);
    if Committed(hot.cache, expected) > USIZE_MAX {
      PhasesKeep(cfg, hot, w.threads[t := Idle]);
    } else {
      MissKeeps(cfg, hot, t, key, expected, victims);
    }
  }

  lemma LookupKeeps<K(!new)>(cfg: Config, w: World<K>, key: K, id: nat)
    requires Inv(cfg, w) && id !in w.leases
    ensures Inv(cfg, Apply(cfg, w, Lookup(key, id)))
  {
    TickKeeps(cfg, w);
    var ticked := w.(cache := Ticked(w.cache));
    if IsReady(ticked.cache, key) && Pin(ticked.cache, key).1.Leased? {
      PinKeeps(cfg, ticked, key, id);
    }
  }

  /** A failed loader keeps its reservation until the destructor runs. */
  lemma LoaderFailsKeeps<K(!new)>(cfg: Config, w: World<K>, t: nat)
    requires Inv(cfg, w) && ThreadPhase(w, t).Loader?
    ensures Inv(cfg, Apply(cfg, w, LoaderFails(t)))
  {
    var p := ThreadPhase(w, t);
    var threads := w.threads[t := Dropping(p.key, p.expected)];
    forall k | k in w.cache.entries && w.cache.entries[k].Loading?
      ensures exists u | u in threads :: Owner(threads[u]) && threads[u].key == k
    {
      var u :| u in w.threads && Owner(w.threads[u]) && w.threads[u].key == k;
      assert u in threads && Owner(threads[u]) && threads[u].key == k;
    }
  }

  // --- every run -----------------------------------------------------------------------

  lemma StepKeeps<K(!new)>(cfg: Config, w: World<K>, step: Step<K>)
    requires ValidConfig(cfg) && Inv(cfg, w) && Enabled(cfg, w, step)
    ensures Inv(cfg, Apply(cfg, w, step))
  {
    match step
    case Lookup(key, id) => LookupKeeps(cfg, w, key, id);
    case Call(t, key, expected) => PhasesKeep(cfg, w, w.threads[t := Asking(key, expected)]);
    case Ask(t, id, victims) => AskKeeps(cfg, w, t, id, victims);
    case Wake(t) => PhasesKeep(cfg, w, w.threads[t := Asking(w.threads[t].key, w.threads[t].expected)]);
    case Publish(t, bytes, id) => PublishKeeps(cfg, w, t, bytes, id);
    case LoaderFails(t) => LoaderFailsKeeps(cfg, w, t);
    case DropReservation(t) => DropReservationKeeps(cfg, w, t);
    case DropLease(id) => DropLeaseKeeps(cfg, w, id);
    case ClearUnpinned => ClearKeeps(cfg, w);
    case MergeHeat(key, requests) =>
      HeatKeeps(cfg, w, Apply(cfg, w, step).cache.heat);
  }

  ghost predicate IsRun<K(!new)>(cfg: Config, w: World<K>, steps: seq<Step<K>>)
    decreases |steps|
  {
    steps == [] || (Enabled(cfg, w, steps[0]) && IsRun(cfg, Apply(cfg, w, steps[0]), steps[1..]))
  }

  ghost function After<K>(cfg: Config, w: World<K>, steps: seq<Step<K>>): World<K>
    decreases |steps|
  {
    if steps == [] then w else After(cfg, Apply(cfg, w, steps[0]), steps[1..])
  }

  lemma {:induction false} RunKeeps<K(!new)>(cfg: Config, w: World<K>, steps: seq<Step<K>>)
    requires ValidConfig(cfg) && Inv(cfg, w) && IsRun(cfg, w, steps)
    ensures Inv(cfg, After(cfg, w, steps))
    decreases |steps|
  {
    if steps != [] {
      StepKeeps(cfg, w, steps[0]);
      RunKeeps(cfg, Apply(cfg, w, steps[0]), steps[1..]);
    }
  }

  ghost predicate Reachable<K(!new)>(cfg: Config, w: World<K>) {
    exists steps :: IsRun(cfg, Empty(), steps) && After(cfg, Empty(), steps) == w
  }

  lemma ReachableInv<K(!new)>(cfg: Config, w: World<K>)
    requires ValidConfig(cfg) && Reachable(cfg, w)
    ensures Inv(cfg, w)
  {
    var steps :| IsRun(cfg, Empty(), steps) && After(cfg, Empty(), steps) == w;
    assert Inv(cfg, Empty<K>());
    RunKeeps(cfg, Empty(), steps);
  }

  /** Safety of every interleaving, and the unreachability of every defensive branch. */
  lemma CacheSafe<K(!new)>(cfg: Config, w: World<K>)
    requires ValidConfig(cfg) && Reachable(cfg, w)
    ensures w.cache.used == Sum(w.cache.entries, ReadyBytes)
    ensures w.cache.reserved == Sum(w.cache.entries, LoadingBytes)
    ensures w.cache.used + w.cache.reserved <= cfg.capacity
    ensures LeasesBacked(w) && SingleFlight(w) && NoLostWakeup(w) && Admitted(cfg, w.cache)
    // publishing never loses its reservation, and never trips an arithmetic guard
    ensures forall t, bytes | ThreadPhase(w, t).Loader? && |bytes| == ThreadPhase(w, t).expected ::
              CacheState.Publish(w.cache, ThreadPhase(w, t).key, bytes).1 == None
    // the saturating subtractions of both destructors never saturate
    ensures forall t | Owner(ThreadPhase(w, t)) :: ThreadPhase(w, t).expected <= w.cache.reserved
    ensures forall id | id in w.leases ::
              IsReady(w.cache, w.leases[id].key) && w.cache.entries[w.leases[id].key].pins > 0 &&
              |w.leases[id].bytes| <= w.cache.used
  {
    ReachableInv(cfg, w);
    forall t | Owner(ThreadPhase(w, t)) ensures ThreadPhase(w, t).expected <= w.cache.reserved {
      OwnerFindsEntry(cfg, w, t);
    }
    forall t, bytes | ThreadPhase(w, t).Loader? && |bytes| == ThreadPhase(w, t).expected
      ensures CacheState.Publish(w.cache, ThreadPhase(w, t).key, bytes).1 == None
    {
      OwnerFindsEntry(cfg, w, t);
    }
    forall id | id in w.leases
      ensures IsReady(w.cache, w.leases[id].key) && w.cache.entries[w.leases[id].key].pins > 0
      ensures |w.leases[id].bytes| <= w.cache.used
    {
      LeasePinsEntry(cfg, w, id);
    }
  }

  /** No sleeper is forgotten: a thread asleep without a notification waits for exactly one
      owner, whose next step is enabled, and the step by which that owner lets go of the key
      notifies the sleeper. */
  lemma SleeperIsServed<K(!new)>(cfg: Config, w: World<K>, t: nat) returns (owner: nat)
    requires ValidConfig(cfg) && Reachable(cfg, w)
    requires ThreadPhase(w, t).Asleep? && !ThreadPhase(w, t).notified
    ensures Owner(ThreadPhase(w, owner)) && ThreadPhase(w, owner).key == ThreadPhase(w, t).key
    ensures forall u | Owner(ThreadPhase(w, u)) && ThreadPhase(w, u).key == ThreadPhase(w, t).key :: u == owner
    ensures ThreadPhase(w, owner).Dropping? ==>
              Enabled(cfg, w, DropReservation(owner)) &&
              ThreadPhase(Apply(cfg, w, DropReservation(owner)), t) == ThreadPhase(w, t).(notified := true)
    ensures forall bytes, id | Enabled(cfg, w, Publish(owner, bytes, id)) ::
              ThreadPhase(Apply(cfg, w, Publish(owner, bytes, id)), t) == ThreadPhase(w, t).(notified := true)
  {
    ReachableInv(cfg, w);
    owner := SleeperHasOwner(w, t);
    forall bytes, id | Enabled(cfg, w, Publish(owner, bytes, id))
      ensures ThreadPhase(Apply(cfg, w, Publish(owner, bytes, id)), t) == ThreadPhase(w, t).(notified := true)
    {
      OwnerFindsEntry(cfg, w, owner);
      PublishAccounts(w.cache, ThreadPhase(w, owner).key, bytes);
      NotifiedAfter(w.threads, owner, t);
    }
    NotifiedAfter(w.threads, owner, t);
  }

  lemma SleeperHasOwner<K(!new)>(w: World<K>, t: nat) returns (owner: nat)
    requires SingleFlight(w) && NoLostWakeup(w)
    requires ThreadPhase(w, t).Asleep? && !ThreadPhase(w, t).notified
    ensures Owner(ThreadPhase(w, owner)) && ThreadPhase(w, owner).key == ThreadPhase(w, t).key
    ensures forall u | Owner(ThreadPhase(w, u)) && ThreadPhase(w, u).key == ThreadPhase(w, t).key :: u == owner
  {
    var key := ThreadPhase(w, t).key;
    assert IsLoading(w.cache, key);
    owner :| owner in w.threads && Owner(w.threads[owner]) && w.threads[owner].key == key;
  }

  lemma NotifiedAfter<K(!new)>(threads: map<nat, Phase<K>>, owner: nat, t: nat)
    requires t in threads && threads[t].Asleep? && owner != t
    ensures t in NotifyAll(threads[owner := Idle])
    ensures NotifyAll(threads[owner := Idle])[t] == threads[t].(notified := true)
  {
  }
}
