/** Evaluating one token through the layers of a Hy3 model. Kernels are uninterpreted
    deterministic functions that may fail; the KV cache is the paged cache itself. */
module Evaluator {
  import opened Common
  import opened KvLayout
  import opened PagedKv
  import opened KvSnapshot
  import opened KvSnapshotIo
  import Generation
  import PrefixReuse

  type Hidden = seq<F32>

  datatype Projection = Projection(queries: seq<F32>, row: Row)

  datatype Route = Route(expert: nat, coefficient: F32)

  datatype Selected = Selected(route: Route, bytes: seq<byte>)

  /** The model: its dimensions and, for every stage of a layer, what the stage computes or
      that it fails (`None`). `load` stands for the expert cache and the expert source; with a
      CPU backend experts are loaded in parallel. */
  datatype Kernels = Kernels(
    shape: Shape,
    vocabulary: nat,
    parallel: bool,
    embed: nat -> Option<Hidden>,
    project: (nat, nat, Hidden) -> Option<Projection>,
    attend: (nat, seq<Row>, Projection) -> Option<seq<F32>>,
    mix: (nat, Hidden, seq<F32>) -> Option<Hidden>,
    isMoe: nat -> bool,
    dense: (nat, Hidden) -> Option<Hidden>,
    route: (nat, Hidden) -> Option<seq<Route>>,
    load: (nat, nat) -> Option<seq<byte>>,
    finish: (nat, Hidden, seq<Selected>) -> Option<Hidden>,
    logits: Hidden -> Option<seq<F32>>)
  {
    ghost predicate Valid() {
      shape.Valid() && PageFits(shape)
    }
  }

  // --- what one evaluation means -----------------------------------------------------------

  /** Attention of one layer: project, attend over the cached rows, append this token's row. */
  function AttentionSpec(k: Kernels, flat: Flat, position: nat, layer: nat, hidden: Hidden): Option<(Flat, Hidden)>
    requires layer < |flat|
  {
    match k.project(layer, position, hidden)
    case None => None
    case Some(projection) =>
      match k.attend(layer, flat[layer], projection)
      case None => None
      case Some(context) =>
        if !RowOk(k.shape, projection.row) || |flat[layer]| >= k.shape.capacity then None
        else match k.mix(layer, hidden, context)
          case None => None
          case Some(mixed) => Some((flat[layer := flat[layer] + [projection.row]], mixed))
  }

  function Load(k: Kernels, layer: nat, route: Route): Option<Selected> {
    match k.load(layer, route.expert)
    case None => None
    case Some(bytes) => Some(Selected(route, bytes))
  }

  /** One payload per routed expert, in routing order, or nothing when one is missing. */
  function LoadAll(k: Kernels, layer: nat, routes: seq<Route>): Option<seq<Selected>> {
    if forall i | 0 <= i < |routes| :: Load(k, layer, routes[i]).Some?
    then Some(seq(|routes|, i requires 0 <= i < |routes| => Load(k, layer, routes[i]).value))
    else None
  }

  lemma LoadedAll(k: Kernels, layer: nat, routes: seq<Route>, selected: seq<Selected>)
    requires |selected| == |routes| && forall i | 0 <= i < |routes| :: Load(k, layer, routes[i]) == Some(selected[i])
    ensures LoadAll(k, layer, routes) == Some(selected)
  {
    assert LoadAll(k, layer, routes).value == selected;
  }

  function FeedForwardSpec(k: Kernels, layer: nat, hidden: Hidden): Option<Hidden> {
    if !k.isMoe(layer) then k.dense(layer, hidden)
    else match k.route(layer, hidden)
      case None => None
      case Some(routes) =>
        match LoadAll(k, layer, routes)
        case None => None
        case Some(selected) => k.finish(layer, hidden, selected)
  }

  function LayersSpec(k: Kernels, flat: Flat, position: nat, layer: nat, hidden: Hidden): Option<(Flat, Hidden)>
    decreases |flat| - layer
  {
    if layer >= |flat| then Some((flat, hidden))
    else match AttentionSpec(k, flat, position, layer, hidden)
      case None => None
      case Some((flat', mixed)) =>
        match FeedForwardSpec(k, layer, mixed)
        case None => None
        case Some(out) => LayersSpec(k, flat', position, layer + 1, out)
  }

  /** The new KV rows and the logits, or `None` when any stage of any layer fails. */
  function EvaluateSpec(k: Kernels, flat: Flat, position: nat, token: nat): Option<(Flat, seq<F32>)> {
    if token >= k.vocabulary || position >= k.shape.capacity then None
    else match k.embed(token)
      case None => None
      case Some(hidden) =>
        match LayersSpec(k, flat, position, 0, hidden)
        case None => None
        case Some((flat', out)) =>
          match k.logits(out)
          case None => None
          case Some(logits) => if |logits| == k.vocabulary then Some((flat', logits)) else None
  }

  // --- the session ---------------------------------------------------------------------------

  /** `flat` is `committed` with at most one more row in each layer. */
  ghost predicate AtMostOneAhead(flat: Flat, committed: Flat) {
    |flat| == |committed| &&
    forall l | 0 <= l < |flat| :: flat[l] == committed[l] || (flat[l] != [] && flat[l][..|flat[l]| - 1] == committed[l])
  }

  /** The first `layer` layers have one row more than before, the others are as they were. */
  ghost predicate Advanced(before: Flat, rows: Flat, layer: nat, position: nat) {
    |rows| == |before| && layer <= |rows| && (forall l | 0 <= l < |before| :: |before[l]| == position) &&
    (forall l | 0 <= l < layer :: |rows[l]| == position + 1 && rows[l][..position] == before[l]) &&
    forall l | layer <= l < |rows| :: rows[l] == before[l]
  }

  class Hy3Session {
    const cache: PagedKvCache
    var position: nat
    var hidden: Hidden
    /** Streaming MoE phase: routed experts are waiting for their payloads. */
    var pending: bool
    var routed: seq<Route>
    var leases: seq<Selected>

    constructor (k: Kernels)
      requires k.Valid()
      ensures Committed(k) && fresh(cache) && position == 0 && cache.Rows() == FlatEmpty(k.shape.layers)
    {
      cache := new PagedKvCache(k.shape, false);
      position, hidden, pending, routed, leases := 0, [], false, [], [];
    }

    /** Between calls: every layer stores exactly `position` tokens and no phase is open. */
    ghost predicate Committed(k: Kernels)
      reads this, cache
    {
      cache.Valid() && cache.shape == k.shape && position <= k.shape.capacity &&
      (forall l | 0 <= l < k.shape.layers :: |cache.Rows()[l]| == position) &&
      !pending && leases == []
    }

    /** The part of a block up to the residual after attention; `memory` says whether the KV
        cache may allocate. */
    method Attention(k: Kernels, layer: nat, memory: bool) returns (ok: bool)
      requires cache.Valid() && cache.shape == k.shape && k.Valid() && layer < k.shape.layers
      modifies this`hidden, cache
      ensures cache.Valid()
      ensures cache.Rows() == old(cache.Rows()) ||
              exists row :: cache.Rows() == old(cache.Rows())[layer := old(cache.Rows())[layer] + [row]]
      ensures ok ==> |old(cache.Rows())[layer]| == position &&
                     AttentionSpec(k, old(cache.Rows()), position, layer, old(hidden)) == Some((cache.Rows(), hidden))
      ensures !ok && memory && |old(cache.Rows())[layer]| == position ==>
                AttentionSpec(k, old(cache.Rows()), position, layer, old(hidden)) == None
    {
      if cache.lengths[layer] != position {
        return false;
      }
      var projection := k.project(layer, position, hidden);
      if projection == None {
        return false;
      }
      var row := projection.value.row;
      var context := k.attend(layer, LayerRows(k.shape, cache.pages[layer], cache.lengths[layer]), projection.value);
      if context == None {
        return false;
      }
      ghost var before := cache.Rows();
      RowAppend(k.shape, before, layer, row);
      var failure := cache.AppendTokens(layer, 1, row.keys, row.values, memory);
      if failure.Some? {
        return false;
      }
      assert cache.Rows() == before[layer := before[layer] + [row]];
      var mixed := k.mix(layer, hidden, context.value);
      if mixed == None {
        return false;
      }
      hidden := mixed.value;
      ok := true;
    }

    /** Attention, then routing; leaves the routed experts pending. */
    method RouteToken(k: Kernels, layer: nat, memory: bool) returns (ok: bool)
      requires cache.Valid() && cache.shape == k.shape && k.Valid() && layer < k.shape.layers
      modifies this`hidden, this`pending, this`routed, cache
      ensures cache.Valid()
      ensures cache.Rows() == old(cache.Rows()) ||
              exists row :: cache.Rows() == old(cache.Rows())[layer := old(cache.Rows())[layer] + [row]]
      ensures ok ==> pending && !old(pending) && |old(cache.Rows())[layer]| == position &&
                     AttentionSpec(k, old(cache.Rows()), position, layer, old(hidden)) ==
                       Some((cache.Rows(), hidden)) &&
                     k.route(layer, hidden) == Some(routed)
      ensures !ok && memory && !old(pending) && |old(cache.Rows())[layer]| == position ==>
                match AttentionSpec(k, old(cache.Rows()), position, layer, old(hidden))
                case None => true
                case Some((_, mixed)) => k.route(layer, mixed) == None
    {
      if pending {
        return false;
      }
      routed := [];
      ok := Attention(k, layer, memory);
      if !ok {
        return;
      }
      var routes := k.route(layer, hidden);
      if routes == None {
        return false;
      }
      routed, pending := routes.value, true;
    }

    /** Accepts only the experts that routing chose, in order and bit for bit, and only once. */
    method FinishToken(k: Kernels, layer: nat, selected: seq<Selected>) returns (ok: bool)
      modifies this`hidden, this`pending
      ensures ok <==> old(pending) && |selected| == |routed| &&
                      (forall i | 0 <= i < |routed| :: selected[i].route == routed[i]) &&
                      k.finish(layer, old(hidden), selected).Some?
      ensures ok ==> !pending && Some(hidden) == k.finish(layer, old(hidden), selected)
      ensures !ok ==> pending == old(pending) && hidden == old(hidden)
    {
      if !pending || |selected| != |routed| {
        return false;
      }
      for i := 0 to |routed|
        invariant forall j | 0 <= j < i :: selected[j].route == routed[j]
      {
        if selected[i].route != routed[i] {
          return false;
        }
      }
      var out := k.finish(layer, hidden, selected);
      if out == None {
        return false;
      }
      hidden, pending, ok := out.value, false, true;
    }

    /** The expert loads of one layer, one lease per routed expert, one after another or, with a
        CPU backend, in parallel. */
    method LoadExperts(k: Kernels, layer: nat, routes: seq<Route>) returns (ok: bool)
      modifies this`leases
      ensures ok <==> LoadAll(k, layer, routes).Some?
      ensures ok ==> LoadAll(k, layer, routes) == Some(leases)
    {
      if k.parallel {
        ok := LoadInParallel(k, layer, routes);
        return;
      }
      leases := [];
      for i := 0 to |routes|
        invariant |leases| == i && forall j | 0 <= j < i :: Load(k, layer, routes[j]) == Some(leases[j])
      {
        var loaded := Load(k, layer, routes[i]);
        if loaded == None {
          return false;
        }
        leases := leases + [loaded.value];
      }
      LoadedAll(k, layer, routes, leases);
      ok := true;
    }

    /** Loads that finish in any order whatsoever: each result goes to the place of its route. */
    method LoadInParallel(k: Kernels, layer: nat, routes: seq<Route>) returns (ok: bool)
      modifies this`leases
      ensures ok <==> LoadAll(k, layer, routes).Some?
      ensures ok ==> LoadAll(k, layer, routes) == Some(leases)
    {
      leases := [];
      var slots: seq<Option<Selected>> := Zeros(|routes|, None);
      var running := seq(|routes|, i => i);
      forall i | 0 <= i < |routes| ensures i in running {
        assert running[i] == i;
      }
      while running != []
        invariant |slots| == |routes| && forall j | 0 <= j < |running| :: 0 <= running[j] < |routes|
        invariant forall i | 0 <= i < |routes| && i !in running ::
                    slots[i].Some? && slots[i] == Load(k, layer, routes[i])
        decreases |running|
      {
        var j :| 0 <= j < |running|;
        var i := running[j];
        slots := slots[i := Load(k, layer, routes[i])];
        if slots[i] == None {
          return false;
        }
        ghost var before := running;
        running := running[..j] + running[j + 1..];
        assert forall x | x in before :: x == i || x in running;
      }
      leases := seq(|slots|, i requires 0 <= i < |slots| && slots[i].Some? => slots[i].value);
      LoadedAll(k, layer, routes, leases);
      ok := true;
    }

    method EvaluateLayer(k: Kernels, layer: nat, memory: bool) returns (ok: bool)
      requires cache.Valid() && cache.shape == k.shape && k.Valid() && layer < k.shape.layers && !pending
      requires |cache.Rows()[layer]| == position
      modifies this`hidden, this`pending, this`routed, this`leases, cache
      ensures cache.Valid()
      ensures cache.Rows() == old(cache.Rows()) ||
              exists row :: cache.Rows() == old(cache.Rows())[layer := old(cache.Rows())[layer] + [row]]
      ensures ok ==> !pending && (old(leases) == [] ==> leases == [])
      ensures ok ==> LayerOutcome(k, old(cache.Rows()), position, layer, old(hidden)) == Some((cache.Rows(), hidden))
      ensures !ok && memory ==> LayerOutcome(k, old(cache.Rows()), position, layer, old(hidden)) == None
    {
      if !k.isMoe(layer) {
        ok := Attention(k, layer, memory);
        if !ok {
          return;
        }
        var out := k.dense(layer, hidden);
        if out == None {
          return false;
        }
        hidden := out.value;
        return;
      }
      ok := RouteToken(k, layer, memory);
      if !ok {
        return;
      }
      ok := LoadExperts(k, layer, routed);
      if !ok {
        return;
      }
      ok := FinishToken(k, layer, leases);
      if ok {
        leases := [];
      }
    }

    /** One more layer of a token whose earlier layers are done. */
    method NextLayer(k: Kernels, layer: nat, memory: bool, ghost before: Flat) returns (ok: bool)
      requires cache.Valid() && cache.shape == k.shape && k.Valid() && layer < k.shape.layers && !pending &&
               leases == []
      requires Advanced(before, cache.Rows(), layer, position)
      modifies this`hidden, this`pending, this`routed, this`leases, cache
      ensures cache.Valid()
      ensures ok ==> !pending && leases == [] && Advanced(before, cache.Rows(), layer + 1, position)
      ensures ok ==> LayersSpec(k, old(cache.Rows()), position, layer, old(hidden)) ==
                     LayersSpec(k, cache.Rows(), position, layer + 1, hidden)
      ensures !ok ==> AtMostOneAhead(cache.Rows(), before)
      ensures !ok && memory ==> LayersSpec(k, old(cache.Rows()), position, layer, old(hidden)) == None
    {
      ghost var rows := cache.Rows();
      ok := EvaluateLayer(k, layer, memory);
      if ok {
        OneRowAhead(k, rows, position, layer, cache.Rows());
      } else {
        StillClose(before, rows, cache.Rows(), layer, position);
      }
    }

    /** All stages of one token. It may fail anywhere, leaving some layers one row ahead. */
    method EvaluateInner(k: Kernels, token: nat, memory: nat -> bool) returns (r: Option<seq<F32>>)
      requires k.Valid() && Committed(k)
      modifies this, cache
      ensures cache.Valid() && AtMostOneAhead(cache.Rows(), old(cache.Rows()))
      ensures r.Some? ==> EvaluateSpec(k, old(cache.Rows()), old(position), token) == Some((cache.Rows(), r.value))
      ensures r.Some? ==> position == old(position) + 1 && Committed(k)
      ensures r == None ==> position == old(position)
      ensures r == None && (forall l :: memory(l)) ==> EvaluateSpec(k, old(cache.Rows()), old(position), token) == None
    {
      if token >= k.vocabulary || position >= k.shape.capacity {
        return None;
      }
      var embedded := k.embed(token);
      if embedded == None {
        return None;
      }
      hidden := embedded.value;
      var ok := RunLayers(k, memory);
      if !ok {
        return None;
      }
      var logits := k.logits(hidden);
      if logits == None || |logits.value| != k.vocabulary {
        return None;
      }
      position := position + 1;
      r := logits;
    }

    /** The layer loop. */
    method RunLayers(k: Kernels, memory: nat -> bool) returns (ok: bool)
      requires k.Valid() && Committed(k)
      modifies this`hidden, this`pending, this`routed, this`leases, cache
      ensures cache.Valid() && AtMostOneAhead(cache.Rows(), old(cache.Rows()))
      ensures ok ==> !pending && leases == [] && Advanced(old(cache.Rows()), cache.Rows(), k.shape.layers, position)
      ensures ok ==> LayersSpec(k, old(cache.Rows()), position, 0, old(hidden)) == Some((cache.Rows(), hidden))
      ensures !ok && (forall l :: memory(l)) ==> LayersSpec(k, old(cache.Rows()), position, 0, old(hidden)) == None
    {
      ghost var before, spec := cache.Rows(), LayersSpec(k, cache.Rows(), position, 0, hidden);
      for layer := 0 to k.shape.layers
        invariant cache.Valid() && !pending && leases == [] && Advanced(before, cache.Rows(), layer, position)
        invariant spec == LayersSpec(k, cache.Rows(), position, layer, hidden)
      {
        ok := NextLayer(k, layer, memory(layer), before);
        if !ok {
          return;
        }
      }
      ok := true;
      StillClose(before, cache.Rows(), cache.Rows(), k.shape.layers, position);
    }

    /** Clears every trace of an unfinished token. */
    method RollbackTo(k: Kernels, committed: nat, ghost rows: Flat)
      requires cache.Valid() && cache.shape == k.shape && committed <= k.shape.capacity
      requires |rows| == k.shape.layers && (forall l | 0 <= l < |rows| :: |rows[l]| == committed)
      requires AtMostOneAhead(cache.Rows(), rows)
      modifies this, cache
      ensures Committed(k) && position == committed && cache.Rows() == rows
    {
      RewindRestores(cache.Rows(), rows, committed);
      var failure := cache.RewindAll(committed);
      assert failure == None;  // the rewind itself never fails
      pending, routed, leases := false, [], [];
      hidden := Zeros(|hidden|, 0);
      position := committed;
    }

    /** Transactional evaluation: a failing token, at whatever layer or stage, leaves the session
        exactly as it was; a successful one adds one row to every layer. */
    method Evaluate(k: Kernels, token: nat, memory: nat -> bool) returns (r: Option<seq<F32>>)
      requires k.Valid() && Committed(k)
      modifies this, cache
      ensures Committed(k)
      ensures r == None ==> position == old(position) && cache.Rows() == old(cache.Rows())
      ensures r.Some? ==> position == old(position) + 1 &&
                          EvaluateSpec(k, old(cache.Rows()), old(position), token) == Some((cache.Rows(), r.value)) &&
                          forall l | 0 <= l < k.shape.layers :: cache.Rows()[l][..old(position)] == old(cache.Rows())[l]
      ensures r == None && (forall l :: memory(l)) ==> EvaluateSpec(k, old(cache.Rows()), old(position), token) == None
    {
      var committed := position;
      ghost var rows := cache.Rows();
      r := EvaluateInner(k, token, memory);
      if r == None {
        RollbackTo(k, committed, rows);
      }
    }

    method Reset(k: Kernels)
      requires k.Valid() && cache.Valid() && cache.shape == k.shape
      modifies this, cache
      ensures Committed(k) && position == 0 && cache.Rows() == FlatEmpty(k.shape.layers)
    {
      cache.Reset();
      pending, routed, leases := false, [], [];
      hidden := Zeros(|hidden|, 0);
      position := 0;
    }

    /** Refuses a session whose layers do not all store `position` tokens. */
    method ExportKv(k: Kernels, sha: Sha256, fingerprint: Digest, maximum: nat)
      returns (r: Result<seq<byte>, SnapshotError>)
      requires cache.Valid() && cache.shape == k.shape && maximum <= USIZE_MAX
      ensures LayersSized(k.shape, cache.Rows())
      ensures r.Ok? <==> (forall l | 0 <= l < k.shape.layers :: |cache.Rows()[l]| == position) &&
                         LaneCount(k.shape) <= USIZE_MAX && SnapshotBytes(k.shape, cache.Rows()) <= maximum
      ensures r.Ok? ==> r.value == Encode(sha, k.shape, fingerprint, cache.Rows())
    {
      FlatValidRows(k.shape, cache.Rows());
      for layer := 0 to k.shape.layers
        invariant forall l | 0 <= l < layer :: |cache.Rows()[l]| == position
      {
        if cache.lengths[layer] != position {
          return Err(InconsistentKvLength);
        }
      }
      r := ExportSnapshot(cache, sha, fingerprint, maximum);
    }

    /** A restored session is committed at the restored length; a refused one is untouched. */
    method RestoreKv(k: Kernels, sha: Sha256, fingerprint: Digest, bytes: seq<byte>, maximum: nat, memory: bool)
      returns (failure: Option<SnapshotError>)
      requires k.Valid() && Committed(k)
      modifies this, cache
      ensures Committed(k)
      ensures failure.Some? ==> position == old(position) && cache.Rows() == old(cache.Rows())
      ensures failure == None ==> Decode(sha, k.shape, fingerprint, bytes, maximum, true) == Some(cache.Rows())
      ensures memory ==> (failure == None <==> Decode(sha, k.shape, fingerprint, bytes, maximum, true).Some?)
    {
      failure := RestoreSnapshot(cache, sha, fingerprint, bytes, maximum, true, memory);
      if failure == None {
        DecodeIsCanonical(sha, k.shape, fingerprint, bytes, maximum, true);
        ghost var rows := cache.Rows();
        assert forall l | 0 <= l < |rows| :: Lengths(rows)[l] == |rows[l]|;
        RollbackTo(k, cache.lengths[0], rows);
      } else {
        assert cache.Rows() == old(cache.Rows());
      }
    }
  }

  function LayerOutcome(k: Kernels, flat: Flat, position: nat, layer: nat, hidden: Hidden): Option<(Flat, Hidden)>
    requires layer < |flat|
  {
    match AttentionSpec(k, flat, position, layer, hidden)
    case None => None
    case Some((flat', mixed)) =>
      match FeedForwardSpec(k, layer, mixed)
      case None => None
      case Some(out) => Some((flat', out))
  }

  // --- rows after a partial evaluation -----------------------------------------------------------

  lemma RowAppend(shape: Shape, flat: Flat, layer: nat, row: Row)
    requires shape.Valid() && PageFits(shape) && FlatValid(shape, flat) && layer < shape.layers
    ensures AppendError(shape, flat, layer, 1, row.keys, row.values) == None <==>
            RowOk(shape, row) && |flat[layer]| < shape.capacity
    ensures AppendError(shape, flat, layer, 1, row.keys, row.values) == None ==>
            FlatAppend(shape, flat, layer, 1, row.keys, row.values) == flat[layer := flat[layer] + [row]]
  {
    PageFitsRows(shape);
    TimesOne(shape.KeyRow());
    TimesOne(shape.ValueRow());
    if RowSized(shape, row) && |flat[layer]| < shape.capacity {
      OneTokenAppend(shape, flat, layer, row);
    }
  }

  lemma OneRowAhead(k: Kernels, before: Flat, position: nat, layer: nat, after: Flat)
    requires layer < |before| && |before[layer]| == position && |after| == |before|
    requires after == before || exists row :: after == before[layer := before[layer] + [row]]
    requires exists hidden, out :: LayerOutcome(k, before, position, layer, hidden) == Some((after, out))
    ensures |after[layer]| == position + 1 && after[layer][..position] == before[layer]
  {
    var hidden, out :| LayerOutcome(k, before, position, layer, hidden) == Some((after, out));
    assert AttentionSpec(k, before, position, layer, hidden).Some?;
  }

  lemma StillClose(before: Flat, rows: Flat, after: Flat, layer: nat, position: nat)
    requires Advanced(before, rows, layer, position) && |after| == |rows|
    requires after == rows || (layer < |rows| && exists row :: after == rows[layer := rows[layer] + [row]])
    ensures AtMostOneAhead(after, before)
  {}

  lemma RewindRestores(flat: Flat, committed: Flat, n: nat)
    requires AtMostOneAhead(flat, committed) && forall l | 0 <= l < |committed| :: |committed[l]| == n
    ensures CanRewind(flat, n) && FlatRewind(flat, n) == committed
  {
    forall l | 0 <= l < |flat| ensures n <= |flat[l]| && flat[l][..n] == committed[l] {}
  }

  // --- the evaluator as a causal model -------------------------------------------------------------

  /** What later tokens can depend on. */
  datatype View = View(rows: Flat, position: nat)

  function Hy3Evaluate(k: Kernels, v: View, token: nat, logits: seq<F32>): Generation.Evaluation<View> {
    match EvaluateSpec(k, v.rows, v.position, token)
    case None => Generation.Evaluation(v, logits, false)
    case Some((rows, out)) => Generation.Evaluation(View(rows, v.position + 1), out, true)
  }

  function Hy3Model(k: Kernels): Generation.Model<View, View> {
    Generation.Model(
      k.vocabulary,
      k.shape.capacity,
      View(FlatEmpty(k.shape.layers), 0),
      (v: View) => View(FlatEmpty(k.shape.layers), 0),
      (v: View) => v.position,
      (v: View, token: nat, logits: seq<F32>) => Hy3Evaluate(k, v, token, logits),
      (v: View) => v)
  }

  /** The transactional evaluator meets the hypotheses under which prefix reuse is invisible. */
  lemma Hy3IsCausal(k: Kernels)
    ensures PrefixReuse.Causal(Hy3Model(k))
  {
    var m := Hy3Model(k);
    forall s: View, t: View, token: nat, a: seq<F32>, b: seq<F32> |
      PrefixReuse.SameView(m, s, t) && |a| == m.vocabulary && |b| == m.vocabulary
      ensures PrefixReuse.SameEvaluation(m, s, t, token, a, b)
    {
      assert m.evaluate(s, token, a) == Hy3Evaluate(k, s, token, a);
      assert m.evaluate(t, token, b) == Hy3Evaluate(k, t, token, b);
    }
  }
}
