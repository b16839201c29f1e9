/** The clock behind least-recently-used eviction: `last_used` really orders entries by use. */
module CacheRecency {
  import opened Common
  import opened CacheState
  import opened CacheConcurrency
  import opened CacheSafety

  /** No entry was used after now. */
  ghost predicate Clocked<K(!new)>(s: State<K>) {
    forall k | IsReady(s, k) :: s.entries[k].lastUsed <= s.tick
  }

  lemma {:induction false} EvictAllKeeps<K>(s: State<K>, victims: seq<K>)
    ensures EvictAll(s, victims).tick == s.tick && EvictAll(s, victims).entries.Keys <= s.entries.Keys
    ensures forall k | k in EvictAll(s, victims).entries :: EvictAll(s, victims).entries[k] == s.entries[k]
    decreases |victims|
  {
    if victims != [] && IsReady(s, victims[0]) {
      EvictAllKeeps(Evict(s, victims[0]), victims[1..]);
    }
  }

  /** The key a step uses: it was looked up, asked for and found, or just published. */
  ghost function UsedKey<K>(cfg: Config, w: World<K>, step: Step<K>): Option<K> {
    match step
    case Lookup(key, _) => if Get(w.cache, key).1.Leased? then Some(key) else None
    case Ask(t, _, victims) =>
      var p := ThreadPhase(w, t);
      if p.Asking? && CacheState.Ask(cfg, w.cache, p.key, p.expected, victims).1.Hit? then Some(p.key) else None
    case Publish(t, bytes, _) =>
      var p := ThreadPhase(w, t);
      if p.Loader? && CacheState.Publish(w.cache, p.key, bytes).1 == None then Some(p.key) else None
    case _ => None
  }

  /** What one step does to the clock and to the time of last use of every entry. */
  ghost predicate Timed<K(!new)>(s: State<K>, s': State<K>, used: Option<K>) {
    s.tick <= s'.tick &&
    (forall k | IsReady(s', k) && used != Some(k) ::
       IsReady(s, k) && s'.entries[k].lastUsed == s.entries[k].lastUsed) &&
    (used.Some? ==>
       IsReady(s', used.value) && s'.entries[used.value].lastUsed == s'.tick &&
       (s.tick < U64_MAX ==> s.tick < s'.tick))
  }

  lemma AskTimed<K(!new)>(cfg: Config, w: World<K>, t: nat, lease: nat, victims: seq<K>)
    requires ThreadPhase(w, t).Asking?
    ensures Timed(w.cache, Apply(cfg, w, Ask(t, lease, victims)).cache, UsedKey(cfg, w, Ask(t, lease, victims)))
  {
    var p := ThreadPhase(w, t);
    EvictAllKeeps(Heated(Ticked(w.cache), p.key), victims);
  }

  lemma StepTimed<K(!new)>(cfg: Config, w: World<K>, step: Step<K>)
    requires Enabled(cfg, w, step)
    ensures Timed(w.cache, Apply(cfg, w, step).cache, UsedKey(cfg, w, step))
  {
    if step.Ask? {
      AskTimed(cfg, w, step.thread, step.lease, step.victims);
    }
  }

  lemma {:induction false} RunClocked<K(!new)>(cfg: Config, w: World<K>, steps: seq<Step<K>>)
    requires IsRun(cfg, w, steps) && Clocked(w.cache)
    ensures Clocked(After(cfg, w, steps).cache)
    decreases |steps|
  {
    if steps != [] {
      StepTimed(cfg, w, steps[0]);
      RunClocked(cfg, Apply(cfg, w, steps[0]), steps[1..]);
    }
  }

  /** In every reachable world, using an entry makes it at least as recent as every other (and
      strictly more recent until the 64-bit clock is exhausted), and no step changes the time of
      last use of any entry it does not use. So eviction by `last_used` is eviction by use. */
  lemma UseIsMostRecent<K(!new)>(cfg: Config, w: World<K>, step: Step<K>, other: K)
    requires ValidConfig(cfg) && Reachable(cfg, w) && Enabled(cfg, w, step)
    ensures var after := Apply(cfg, w, step).cache;
            var used := UsedKey(cfg, w, step);
            IsReady(after, other) && used != Some(other) ==>
              LastUsed(after, other) == LastUsed(w.cache, other) &&
              (used.Some? ==> LastUsed(after, other) <= LastUsed(after, used.value) &&
                              (w.cache.tick < U64_MAX ==> LastUsed(after, other) < LastUsed(after, used.value)))
  {
    var steps :| IsRun(cfg, Empty<K>(), steps) && After(cfg, Empty<K>(), steps) == w;
    RunClocked(cfg, Empty<K>(), steps);
    StepTimed(cfg, w, step);
  }

  /** What becomes of an entry when its last lease is returned: it stays if and only if it was
      admitted, and it was admitted exactly when its key was hot enough as its load began. */
  lemma LastLeaseDecides<K(!new)>(cfg: Config, w: World<K>, id: nat)
    requires ValidConfig(cfg) && Reachable(cfg, w) && id in w.leases && LeasesOn(w.leases, w.leases[id].key) == {id}
    ensures var key := w.leases[id].key;
            var after := Apply(cfg, w, DropLease(id)).cache;
            IsReady(w.cache, key) && (key in after.entries <==> w.cache.entries[key].resident) &&
            (key in after.entries ==> Unpinned(after, key) && after.entries[key].bytes == w.leases[id].bytes)
  {
    CacheSafe(cfg, w);
  }

  lemma AdmittedWhenHot<K(!new)>(cfg: Config, w: World<K>, t: nat, lease: nat, victims: seq<K>)
    requires Enabled(cfg, w, Ask(t, lease, victims))
    requires CacheState.Ask(cfg, w.cache, ThreadPhase(w, t).key, ThreadPhase(w, t).expected, victims).1.Reserved?
    ensures var after, key := Apply(cfg, w, Ask(t, lease, victims)).cache, ThreadPhase(w, t).key;
            IsLoading(after, key) && (after.entries[key].resident <==> HeatOf(after, key) >= cfg.admitAfter)
  {
    HeatUntouched(Heated(Ticked(w.cache), ThreadPhase(w, t).key), victims);
  }

  lemma {:induction false} HeatUntouched<K>(s: State<K>, victims: seq<K>)
    ensures EvictAll(s, victims).heat == s.heat
    decreases |victims|
  {
    if victims != [] && IsReady(s, victims[0]) {
      HeatUntouched(Evict(s, victims[0]), victims[1..]);
    }
  }
}
