/** What the eviction loop of `reserve_capacity` does, in closed form: when it succeeds,
    which entries it removes, and that it removes no more than it has to. */
module CacheEviction {
  import opened Common
  import opened CacheState

  lemma EvictAccounted<K>(s: State<K>, key: K)
    requires Accounted(s) && IsReady(s, key)
    ensures Accounted(Evict(s, key))
    ensures Evict(s, key).used == s.used - Size(s, key)
  {
    SumRemove(s.entries, ReadyBytes, key);
    SumRemove(s.entries, LoadingBytes, key);
  }

  ghost function Bytes<K>(s: State<K>, victims: seq<K>): nat {
    if victims == [] then 0 else Size(s, victims[0]) + Bytes(s, victims[1..])
  }

  lemma {:induction false} BytesIgnoresOthers<K>(s: State<K>, t: State<K>, victims: seq<K>)
    requires forall v | v in victims :: Size(s, v) == Size(t, v)
    ensures Bytes(s, victims) == Bytes(t, victims)
    decreases |victims|
  {
    if victims != [] {
      BytesIgnoresOthers(s, t, victims[1..]);
    }
  }

  ghost predicate Distinct<K>(xs: seq<K>) {
    forall i, j | 0 <= i < j < |xs| :: xs[i] != xs[j]
  }

  lemma FirstAndRest<K>(entries: map<K, Entry>, victims: seq<K>)
    requires victims != []
    ensures forall k :: k in victims <==> k == victims[0] || k in victims[1..]
    ensures entries - {victims[0]} - (set v | v in victims[1..]) == entries - set v | v in victims
    ensures victims[0] !in victims[1..] && Distinct(victims[1..]) ==> Distinct(victims)
  {
    assert victims == [victims[0]] + victims[1..];
    assert (set k | k in victims) == {victims[0]} + set k | k in victims[1..];
  }

  /** Every victim was unpinned, no victim is removed twice, and nothing else is touched. */
  lemma {:induction false} RunRemovesExactlyVictims<K>(s: State<K>, capacity: nat, requested: nat, victims: seq<K>)
    requires Accounted(s) && EvictionRun(s, capacity, requested, victims)
    ensures forall v | v in victims :: Unpinned(s, v)
    ensures Distinct(victims)
    ensures EvictAll(s, victims).entries == s.entries - set v | v in victims
    ensures EvictAll(s, victims) == s.(entries := EvictAll(s, victims).entries, used := EvictAll(s, victims).used)
    ensures Bytes(s, victims) <= s.used
    ensures EvictAll(s, victims).used == s.used - Bytes(s, victims)
    ensures Accounted(EvictAll(s, victims))
    decreases |victims|
  {
    if victims != [] {
      var v, rest := victims[0], victims[1..];
      var t := Evict(s, v);
      EvictAccounted(s, v);
      RunRemovesExactlyVictims(t, capacity, requested, rest);
      assert forall k | k in rest :: Unpinned(t, k) && k != v && Unpinned(s, k);
      BytesIgnoresOthers(s, t, rest);
      FirstAndRest(s.entries, victims);
    }
  }

  /** Least recently used first: each victim is no more recent than any unpinned entry that
      is still there when it leaves, whether that entry leaves later or survives. */
  lemma {:induction false} RunFollowsLastUse<K>(s: State<K>, capacity: nat, requested: nat, victims: seq<K>, i: nat,
                                                key: K)
    requires Accounted(s) && EvictionRun(s, capacity, requested, victims)
    requires i < |victims| && Unpinned(s, key) && key !in victims[..i]
    ensures LastUsed(s, victims[i]) <= LastUsed(s, key)
    decreases i
  {
    if i > 0 {
      var v, rest := victims[0], victims[1..];
      EvictAccounted(s, v);
      assert victims[..i] == [v] + rest[..i - 1];
      RunFollowsLastUse(Evict(s, v), capacity, requested, rest, i - 1, key);
      RunRemovesExactlyVictims(Evict(s, v), capacity, requested, rest);
      assert rest[i - 1] in rest;
    }
  }

  /** Stopping one victim earlier would not have made room. */
  lemma {:induction false} RunIsShortest<K>(s: State<K>, capacity: nat, requested: nat, victims: seq<K>, n: nat)
    requires Accounted(s) && EvictionRun(s, capacity, requested, victims) && n < |victims|
    ensures s.used - Bytes(s, victims[..n]) + s.reserved + requested > capacity
    decreases n
  {
    if n > 0 {
      var v, rest := victims[0], victims[1..];
      var t := Evict(s, v);
      EvictAccounted(s, v);
      RunRemovesExactlyVictims(s, capacity, requested, victims);
      RunRemovesExactlyVictims(t, capacity, requested, rest);
      RunIsShortest(t, capacity, requested, rest, n - 1);
      assert victims[..n][0] == v && victims[..n][1..] == rest[..n - 1];
      BytesIgnoresOthers(s, t, rest[..n - 1]);
    }
  }

  lemma PinnedSurvive<K>(s: State<K>, capacity: nat, requested: nat, victims: seq<K>)
    requires Accounted(s) && EvictionRun(s, capacity, requested, victims)
    ensures Sum(EvictAll(s, victims).entries, PinnedBytes) == Sum(s.entries, PinnedBytes)
    decreases |victims|
  {
    if victims != [] {
      EvictAccounted(s, victims[0]);
      SumRemove(s.entries, PinnedBytes, victims[0]);
      PinnedSurvive(Evict(s, victims[0]), capacity, requested, victims[1..]);
    }
  }

  /** Eviction is exact: a completed run makes room if and only if the pinned bytes, the bytes
      in flight and the request fit together. A caller can evaluate the condition beforehand. */
  lemma ReserveSucceedsIff<K(!new)>(s: State<K>, capacity: nat, requested: nat, victims: seq<K>)
    requires Accounted(s) && CompleteRun(s, capacity, requested, victims)
    requires Committed(s, requested) <= USIZE_MAX
    ensures Reserve(s, capacity, requested, victims).1 == None <==>
            Sum(s.entries, PinnedBytes) + s.reserved + requested <= capacity
  {
    var end := EvictAll(s, victims);
    RunRemovesExactlyVictims(s, capacity, requested, victims);
    PinnedSurvive(s, capacity, requested, victims);
    SumBounded(end.entries, PinnedBytes, ReadyBytes);
    if Committed(end, requested) > capacity {
      assert forall k | k in end.entries :: !Unpinned(end, k);
      SumEqual(end.entries, PinnedBytes, ReadyBytes);
    }
  }

  /** A request refused for lack of room has flushed every unpinned entry. */
  lemma RefusalFlushesUnpinned<K(!new)>(s: State<K>, capacity: nat, requested: nat, victims: seq<K>, key: K)
    requires Accounted(s) && CompleteRun(s, capacity, requested, victims)
    requires Reserve(s, capacity, requested, victims).1 == Some(CapacityPinned)
    requires Unpinned(s, key)
    ensures key in victims
  {
    RunRemovesExactlyVictims(s, capacity, requested, victims);
    var end := EvictAll(s, victims);
    assert !Unpinned(end, key);
  }

  /** The eviction loop can always run to its end, whatever the state and the request. */
  lemma {:induction false} CompleteRunExists<K(!new)>(s: State<K>, capacity: nat, requested: nat)
    returns (victims: seq<K>)
    ensures CompleteRun(s, capacity, requested, victims)
    decreases |s.entries|
  {
    var unpinned := set k | k in s.entries && Unpinned(s, k);
    victims := [];
    if Committed(s, requested) > capacity && unpinned != {} {
      var v := OldestExists(s, unpinned);
      assert forall k | k in s.entries && Unpinned(s, k) :: k in unpinned;
      var rest := CompleteRunExists(Evict(s, v), capacity, requested);
      victims := [v] + rest;
      assert victims[0] == v && victims[1..] == rest;
    } else {
      assert forall k | Unpinned(s, k) :: k in unpinned;
    }
  }

  /** An eviction candidate exists whenever some entry is unpinned, so the loop never stalls. */
  lemma {:induction false} OldestExists<K>(s: State<K>, keys: set<K>) returns (key: K)
    requires keys != {} && forall k | k in keys :: Unpinned(s, k)
    ensures key in keys
    ensures forall k | k in keys :: LastUsed(s, key) <= LastUsed(s, k)
    decreases |keys|
  {
    key := Pick(keys);
    if keys != {key} {
      var other := OldestExists(s, keys - {key});
      if LastUsed(s, other) < LastUsed(s, key) {
        key := other;
      }
    }
  }
}
