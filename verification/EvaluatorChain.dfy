/** What evaluating a token means, as one chain through the kernels: the hidden states h0, h1, ... from
    the embedding to the logits, and the rows appended on the way. */
module EvaluatorChain {
  import opened Common
  import opened KvLayout
  import opened PagedKv
  import opened Evaluator
  import Generation

  /** The intermediate values of one layer. */
  datatype Stage = Stage(projection: Projection, context: seq<F32>, mixed: Hidden, selected: seq<Selected>)

  /** Every routed expert with the payload loaded for it, in routing order. */
  ghost predicate Loaded(k: Kernels, layer: nat, routes: seq<Route>, selected: seq<Selected>) {
    |selected| == |routes| &&
    forall i | 0 <= i < |routes| ::
      selected[i].route == routes[i] && k.load(layer, routes[i].expert) == Some(selected[i].bytes)
  }

  /** One layer, from hidden state `h` over the rows stored for it to the next hidden state: project,
      attend, mix; then the dense block or the routed experts. */
  ghost predicate LayerRuns(k: Kernels, stored: seq<Row>, position: nat, layer: nat, h: Hidden, stage: Stage,
                            next: Hidden)
  {
    k.project(layer, position, h) == Some(stage.projection) &&
    k.attend(layer, stored, stage.projection) == Some(stage.context) &&
    RowOk(k.shape, stage.projection.row) && |stored| < k.shape.capacity &&
    k.mix(layer, h, stage.context) == Some(stage.mixed) &&
    if k.isMoe(layer) then
      k.route(layer, stage.mixed).Some? && Loaded(k, layer, k.route(layer, stage.mixed).value, stage.selected) &&
      k.finish(layer, stage.mixed, stage.selected) == Some(next)
    else stage.selected == [] && k.dense(layer, stage.mixed) == Some(next)
  }

  ghost predicate LayerAt(k: Kernels, flat: Flat, position: nat, layer: nat, hs: seq<Hidden>, stages: seq<Stage>,
                          i: nat)
    requires |hs| == |stages| + 1 && i < |stages| && layer + i < |flat|
  {
    LayerRuns(k, flat[layer + i], position, layer + i, hs[i], stages[i], hs[i + 1])
  }

  /** The layers from `layer` on. */
  ghost predicate Layers(k: Kernels, flat: Flat, position: nat, layer: nat, hs: seq<Hidden>, stages: seq<Stage>) {
    layer <= |flat| && |stages| == |flat| - layer && |hs| == |stages| + 1 &&
    forall i: nat | i < |stages| :: LayerAt(k, flat, position, layer, hs, stages, i)
  }

  /** Each of these layers gets the row projected for the token. */
  ghost function RowsAfter(flat: Flat, layer: nat, stages: seq<Stage>): (r: Flat)
    requires layer <= |flat| && |stages| == |flat| - layer
    ensures |r| == |flat|
  {
    seq(|flat|, l requires 0 <= l < |flat| =>
      if l < layer then flat[l] else flat[l] + [stages[l - layer].projection.row])
  }

  // --- from the evaluator to the chain ---------------------------------------------------------------

  lemma RunLayer(k: Kernels, flat: Flat, position: nat, layer: nat, h: Hidden) returns (stage: Stage)
    requires layer < |flat| && LayerOutcome(k, flat, position, layer, h).Some?
    ensures var (rows, next) := LayerOutcome(k, flat, position, layer, h).value;
            LayerRuns(k, flat[layer], position, layer, h, stage, next) &&
            rows == flat[layer := flat[layer] + [stage.projection.row]]
  {
    var projection := k.project(layer, position, h).value;
    var context := k.attend(layer, flat[layer], projection).value;
    var mixed := k.mix(layer, h, context).value;
    stage := Stage(projection, context, mixed, []);
    if k.isMoe(layer) {
      var routes := k.route(layer, mixed).value;
      stage := Stage(projection, context, mixed, LoadAll(k, layer, routes).value);
      assert forall i | 0 <= i < |routes| :: Load(k, layer, routes[i]).Some?;
    }
  }

  lemma ChainCons(k: Kernels, flat: Flat, rows: Flat, position: nat, layer: nat, h: Hidden, stage: Stage,
                  hs: seq<Hidden>, stages: seq<Stage>)
    requires layer < |flat| && rows == flat[layer := flat[layer] + [stage.projection.row]]
    requires |stages| == |flat| - layer - 1 && |hs| == |stages| + 1
    ensures Layers(k, flat, position, layer, [h] + hs, [stage] + stages) <==>
              LayerRuns(k, flat[layer], position, layer, h, stage, hs[0]) &&
              Layers(k, rows, position, layer + 1, hs, stages)
    ensures RowsAfter(flat, layer, [stage] + stages) == RowsAfter(rows, layer + 1, stages)
  {
    var hs', stages', above := [h] + hs, [stage] + stages, layer + 1;
    assert LayerAt(k, flat, position, layer, hs', stages', 0) <==>
           LayerRuns(k, flat[layer], position, layer, h, stage, hs[0]);
    if Layers(k, rows, position, above, hs, stages) && LayerRuns(k, flat[layer], position, layer, h, stage, hs[0]) {
      forall i: nat | i < |stages'| ensures LayerAt(k, flat, position, layer, hs', stages', i) {
        if i > 0 {
          assert LayerAt(k, rows, position, above, hs, stages, i - 1);
          LayerShift(k, flat, rows, position, layer, above, hs', stages', hs, stages, i - 1);
        }
      }
    }
    if Layers(k, flat, position, layer, hs', stages') {
      forall i: nat | i < |stages| ensures LayerAt(k, rows, position, above, hs, stages, i) {
        assert LayerAt(k, flat, position, layer, hs', stages', i + 1);
        LayerShift(k, flat, rows, position, layer, above, hs', stages', hs, stages, i);
      }
    }
  }

  lemma LayerShift(k: Kernels, flat: Flat, rows: Flat, position: nat, layer: nat, above: nat, hs': seq<Hidden>,
                   stages': seq<Stage>, hs: seq<Hidden>, stages: seq<Stage>, i: nat)
    requires above == layer + 1 && |rows| == |flat| && above + i < |flat| && rows[above + i] == flat[above + i]
    requires i < |stages| && |hs| == |stages| + 1 && |hs'| == |stages'| + 1
    requires hs'[1..] == hs && stages'[1..] == stages
    ensures LayerAt(k, flat, position, layer, hs', stages', i + 1) <==> LayerAt(k, rows, position, above, hs, stages, i)
  {
    assert hs'[i + 1] == hs[i] && hs'[i + 2] == hs[i + 1] && stages'[i + 1] == stages[i];
    assert layer + (i + 1) == above + i;
  }

  lemma {:induction false} LayersChain(k: Kernels, flat: Flat, position: nat, layer: nat, h: Hidden)
    returns (hs: seq<Hidden>, stages: seq<Stage>)
    requires layer <= |flat| && LayersSpec(k, flat, position, layer, h).Some?
    ensures Layers(k, flat, position, layer, hs, stages) && hs[0] == h
    ensures LayersSpec(k, flat, position, layer, h) == Some((RowsAfter(flat, layer, stages), hs[|stages|]))
    decreases |flat| - layer
  {
    if layer == |flat| {
      hs, stages := [h], [];
      assert RowsAfter(flat, layer, stages) == flat;
    } else {
      var stage := RunLayer(k, flat, position, layer, h);
      var (rows, next) := LayerOutcome(k, flat, position, layer, h).value;
      var hs', stages' := LayersChain(k, rows, position, layer + 1, next);
      hs, stages := [h] + hs', [stage] + stages';
      ChainCons(k, flat, rows, position, layer, h, stage, hs', stages');
    }
  }

  // --- and back ------------------------------------------------------------------------------------------

  lemma LayerMeans(k: Kernels, flat: Flat, position: nat, layer: nat, h: Hidden, stage: Stage, next: Hidden)
    requires layer < |flat| && LayerRuns(k, flat[layer], position, layer, h, stage, next)
    ensures LayerOutcome(k, flat, position, layer, h) ==
            Some((flat[layer := flat[layer] + [stage.projection.row]], next))
  {
    if k.isMoe(layer) {
      LoadedAll(k, layer, k.route(layer, stage.mixed).value, stage.selected);
    }
  }

  lemma {:induction false} ChainRuns(k: Kernels, flat: Flat, position: nat, layer: nat, hs: seq<Hidden>,
                                     stages: seq<Stage>)
    requires Layers(k, flat, position, layer, hs, stages)
    ensures LayersSpec(k, flat, position, layer, hs[0]) == Some((RowsAfter(flat, layer, stages), hs[|stages|]))
    decreases |flat| - layer
  {
    if layer == |flat| {
      assert RowsAfter(flat, layer, stages) == flat;
    } else {
      var rows := flat[layer := flat[layer] + [stages[0].projection.row]];
      assert hs == [hs[0]] + hs[1..] && stages == [stages[0]] + stages[1..];
      ChainCons(k, flat, rows, position, layer, hs[0], stages[0], hs[1..], stages[1..]);
      LayerMeans(k, flat, position, layer, hs[0], stages[0], hs[1]);
      ChainRuns(k, rows, position, layer + 1, hs[1..], stages[1..]);
    }
  }

  // --- a token ---------------------------------------------------------------------------------------------

  /** A token's whole way: its embedding, every layer in order, the logits of the last hidden state. */
  ghost predicate Chain(k: Kernels, flat: Flat, position: nat, token: nat, hs: seq<Hidden>, stages: seq<Stage>,
                        rows: Flat, logits: seq<F32>)
  {
    token < k.vocabulary && position < k.shape.capacity && Layers(k, flat, position, 0, hs, stages) &&
    k.embed(token) == Some(hs[0]) && k.logits(hs[|stages|]) == Some(logits) && |logits| == k.vocabulary &&
    rows == RowsAfter(flat, 0, stages)
  }

  /** Evaluation gives these rows and logits if and only if there is such a chain. */
  lemma EvaluationIsChain(k: Kernels, flat: Flat, position: nat, token: nat, rows: Flat, logits: seq<F32>)
    ensures EvaluateSpec(k, flat, position, token) == Some((rows, logits)) <==>
            exists hs, stages :: Chain(k, flat, position, token, hs, stages, rows, logits)
  {
    if EvaluateSpec(k, flat, position, token) == Some((rows, logits)) {
      var hs, stages := LayersChain(k, flat, position, 0, k.embed(token).value);
      assert Chain(k, flat, position, token, hs, stages, rows, logits);
    }
    if exists hs, stages :: Chain(k, flat, position, token, hs, stages, rows, logits) {
      var hs, stages :| Chain(k, flat, position, token, hs, stages, rows, logits);
      ChainRuns(k, flat, position, 0, hs, stages);
    }
  }

  /** What the session object's logits are after a token: those at the end of its chain. */
  lemma LogitsAreChain(k: Kernels, s: Generation.Session<View>, token: nat)
    requires Generation.Evaluate(Hy3Model(k), s, token).1
    ensures var after := Generation.Evaluate(Hy3Model(k), s, token).0;
            after.history == s.history + [token] && after.model.position == s.model.position + 1 &&
            exists hs, stages ::
              Chain(k, s.model.rows, s.model.position, token, hs, stages, after.model.rows, after.logits)
  {
    var after := Generation.Evaluate(Hy3Model(k), s, token).0;
    assert Hy3Model(k).evaluate(s.model, token, s.logits) == Hy3Evaluate(k, s.model, token, s.logits);
    EvaluationIsChain(k, s.model.rows, s.model.position, token, after.model.rows, after.logits);
  }
}
