/** Threads sharing the cache object. The condition variable, the program counters and the
    leases are data here; everything else a thread does goes through the object's methods. Every
    schedule of those methods is a run of the transition system, so `CacheSafe` and its
    companions are statements about the object. */
module CacheThreads {
  import opened Common
  import opened CacheState
  import opened CacheEviction
  import opened CacheConcurrency
  import opened CacheSafety
  import opened CacheLife
  import opened CompressedCacheObject

  /** What a scheduler can see: everything `Enabled` asks for except the outcome of the eviction
      loop, which the code and not the scheduler decides. */
  predicate Offered<K>(cfg: Config, threads: map<nat, Phase<K>>, leases: map<nat, Lease<K>>, action: Step<K>) {
    match action
    case Lookup(_, lease) => lease !in leases
    case Call(t, _, expected) => (t in threads ==> threads[t].Idle?) && 0 < expected <= cfg.capacity
    case Ask(t, lease, _) => t in threads && threads[t].Asking? && lease !in leases
    case Wake(t) => t in threads && threads[t].Asleep?
    case Publish(t, bytes, lease) =>
      t in threads && threads[t].Loader? && |bytes| == threads[t].expected && lease !in leases
    case LoaderFails(t) => t in threads && threads[t].Loader?
    case DropReservation(t) => t in threads && threads[t].Dropping?
    case DropLease(lease) => lease in leases
    case ClearUnpinned => true
    case MergeHeat(_, requests) => requests > 0
  }

  /** The same step, up to the victims the code chose. */
  predicate SameChoice<K(==)>(action: Step<K>, step: Step<K>) {
    if action.Ask? && step.Ask? then action.(victims := step.victims) == step else action == step
  }

  lemma OfferedIffEnabled<K(!new)>(cfg: Config, w: World<K>, action: Step<K>)
    ensures Enabled(cfg, w, action) ==> Offered(cfg, w.threads, w.leases, action)
    ensures Offered(cfg, w.threads, w.leases, action) ==>
              exists step :: SameChoice(action, step) && Enabled(cfg, w, step)
  {
    if Offered(cfg, w.threads, w.leases, action) {
      if action.Ask? {
        var p := ThreadPhase(w, action.thread);
        var victims := CompleteRunExists(Heated(Ticked(w.cache), p.key), cfg.capacity, p.expected);
        assert SameChoice(action, action.(victims := victims)) && Enabled(cfg, w, action.(victims := victims));
      } else {
        assert SameChoice(action, action) && Enabled(cfg, w, action);
      }
    }
  }

  lemma FreshLease<K>(leases: map<nat, Lease<K>>) returns (id: nat)
    ensures id !in leases
  {
    id := 0;
    var seen: set<nat> := {};
    while id in leases
      invariant seen <= leases.Keys && forall i: nat :: i in seen <==> i < id
      decreases leases.Keys - seen
    {
      seen := seen + {id};
      id := id + 1;
    }
  }

  /** No thread inside a call is ever stuck: in every world it has a step of its own. */
  lemma ThreadCanStep<K(!new)>(cfg: Config, w: World<K>, t: nat) returns (step: Step<K>)
    requires !ThreadPhase(w, t).Idle?
    ensures Enabled(cfg, w, step)
    ensures match ThreadPhase(w, t)
            case Idle => false
            case Asking(_, _) => step.Ask? && step.thread == t
            case Asleep(_, _, _) => step == Wake(t)
            case Loader(_, expected) => step.Publish? && step.thread == t && |step.bytes| == expected
            case Dropping(_, _) => step == DropReservation(t)
  {
    var lease := FreshLease(w.leases);
    match ThreadPhase(w, t)
    case Asking(key, expected) =>
      var victims := CompleteRunExists(Heated(Ticked(w.cache), key), cfg.capacity, expected);
      step := Ask(t, lease, victims);
    case Asleep(_, _, _) => step := Wake(t);
    case Loader(_, expected) => step := Publish(t, seq(expected, i => 0), lease);
    case Dropping(_, _) => step := DropReservation(t);
  }

  class SharedCache<K(==,!new)> {
    const cache: CompressedCache<K>
    var threads: map<nat, Phase<K>>
    var leases: map<nat, Lease<K>>

    ghost function Now(): World<K>
      reads this, cache
    {
      World(cache.Guarded(), threads, leases)
    }

    ghost predicate Valid()
      reads this, cache
    {
      ValidConfig(cache.config) && Reachable(cache.config, Now())
    }

    constructor (config: Config)
      requires ValidConfig(config)
      ensures cache.config == config && fresh(cache) && Now() == Empty<K>() && Valid()
    {
      cache := new CompressedCache<K>(config);
      threads, leases := map[], map[];
      new;
      assert IsRun(config, Empty<K>(), []) && After(config, Empty<K>(), []) == Empty<K>();
    }

    /** One critical section of one thread. Whatever the eviction loop picks, the object has
        taken a step that the transition system allows. */
    method Perform(action: Step<K>) returns (ghost step: Step<K>)
      requires Valid() && Offered(cache.config, threads, leases, action)
      modifies this, cache
      ensures SameChoice(action, step) && Enabled(cache.config, old(Now()), step)
      ensures Now() == Apply(cache.config, old(Now()), step) && Valid()
    {
      CacheSafe(cache.config, Now());
      step := action;
      match action {
        case Lookup(key, lease) =>
          var outcome := cache.Get(key);
          if outcome.Leased? {
            leases := leases[lease := Lease(key, outcome.bytes)];
          }
        case Call(t, key, expected) =>
          threads := threads[t := Asking(key, expected)];
        case Ask(t, lease, _) =>
          step := AskOnce(t, lease);
        case Wake(t) =>
          threads := threads[t := Asking(threads[t].key, threads[t].expected)];
        case Publish(t, bytes, lease) =>
          PublishLoaded(t, bytes, lease);
        case LoaderFails(t) =>
          threads := threads[t := Dropping(threads[t].key, threads[t].expected)];
        case DropReservation(t) =>
          cache.DropReservation(threads[t].key, threads[t].expected);
          threads := NotifyAll(threads[t := Idle]);
        case DropLease(lease) =>
          cache.DropLease(leases[lease].key);
          threads, leases := NotifyAll(threads), leases - {lease};
        case ClearUnpinned =>
          var _ := cache.ClearUnpinned();
        case MergeHeat(key, requests) =>
          cache.MergeHeat(key, requests);
      }
      ReachableNext(cache.config, old(Now()), step);
    }

    /** One pass of the retry loop, and what the thread does with its outcome. */
    method AskOnce(t: nat, lease: nat) returns (ghost step: Step<K>)
      requires ValidConfig(cache.config) && Accounted(cache.Guarded())
      requires t in threads && threads[t].Asking? && lease !in leases
      modifies this, cache
      ensures step.Ask? && step.thread == t && step.lease == lease
      ensures Enabled(cache.config, old(Now()), step) && Now() == Apply(cache.config, old(Now()), step)
    {
      var p := threads[t];
      var outcome, victims := cache.Ask(p.key, p.expected);
      step := Ask(t, lease, victims);
      match outcome
      case Hit(bytes) =>
        threads, leases := threads[t := Idle], leases[lease := Lease(p.key, bytes)];
      case MustWait =>
        threads := threads[t := Asleep(p.key, p.expected, false)];
      case Reserved =>
        threads := threads[t := Loader(p.key, p.expected)];
      case Failed(_) =>
        threads := threads[t := Idle];
    }

    /** The loader has delivered; its thread publishes, or is left with the reservation to drop. */
    method PublishLoaded(t: nat, bytes: seq<byte>, lease: nat)
      requires t in threads && threads[t].Loader?
      modifies this, cache
      ensures Now() == Apply(cache.config, old(Now()), Publish(t, bytes, lease))
    {
      var p := threads[t];
      var failure := cache.Publish(p.key, bytes);
      if failure.Some? {
        threads := threads[t := Dropping(p.key, p.expected)];
      } else {
        threads, leases := NotifyAll(threads[t := Idle]), leases[lease := Lease(p.key, bytes)];
      }
    }

    /** Any schedule, skipping actions whose thread is not at that point, is a run. */
    method RunSchedule(schedule: seq<Step<K>>) returns (ghost steps: seq<Step<K>>)
      requires Valid()
      modifies this, cache
      ensures Valid() && IsRun(cache.config, old(Now()), steps)
      ensures Now() == After(cache.config, old(Now()), steps)
    {
      steps := [];
      for i := 0 to |schedule|
        invariant Valid() && IsRun(cache.config, old(Now()), steps)
        invariant Now() == After(cache.config, old(Now()), steps)
      {
        if Offered(cache.config, threads, leases, schedule[i]) {
          var step := Perform(schedule[i]);
          OneStepLonger(cache.config, old(Now()), steps, step);
          steps := steps + [step];
        }
      }
    }
  }
}
