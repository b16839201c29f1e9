/** The generation loop over an abstract deterministic model: prefill, sample, evaluate, stop.
    Sessions remember the tokens they have evaluated so that a later prompt can reuse them. */
module Generation {
  import opened Common

  // --- the environment -------------------------------------------------------------------

  datatype Evaluation<S> = Evaluation(session: S, logits: seq<F32>, ok: bool)

  /** A causal model. `view` is the part of the model state that later evaluations may depend
      on (for Hy3, the KV rows and the position); scratch buffers are not part of it. */
  datatype Model<!S, V> = Model(
    vocabulary: nat,
    context: nat,
    blank: S,
    reset: S -> S,
    position: S -> nat,
    evaluate: (S, nat, seq<F32>) -> Evaluation<S>,
    view: S -> V)

  datatype Sampled<R> = Sampled(rng: R, token: Option<nat>)

  /** A seeded sampler: what it draws depends on its own state, the logits and the history. */
  datatype Sampler<!R> = Sampler(seeded: R, sample: (R, seq<F32>, seq<nat>) -> Sampled<R>)

  /** The streaming callback, with whatever state it accumulates; `true` asks to stop. */
  datatype Listener<!E> = Listener(start: E, emit: (E, nat, nat) -> (E, bool))

  datatype Config = Config(valid: bool, maxNewTokens: nat, stopTokens: set<nat>, emitStop: bool)

  /** One call of `generate_stream`; `cancelled` answers each successive poll of the token. */
  datatype Request<!R, !E> = Request(
    config: Config,
    sampler: Sampler<R>,
    listener: Listener<E>,
    cancelled: nat -> bool,
    prompt: seq<nat>)

  datatype StopReason = StopToken(token: nat) | MaxTokens | ContextLength | Cancelled | Callback

  datatype Outcome = Outcome(tokens: seq<nat>, stop: StopReason)

  datatype GenerationError =
    | InvalidConfig
    | SessionPoisoned
    | TokenOutOfRange
    | PromptExceedsContext
    | EmptyPrompt
    | ModelFailed
    | SamplingFailed

  // --- sessions ----------------------------------------------------------------------------

  datatype Session<S> = Session(model: S, history: seq<nat>, logits: seq<F32>, hasLogits: bool, healthy: bool)

  function NewSession<S, V>(m: Model<S, V>): Session<S> {
    Session(m.blank, [], Zeros(m.vocabulary, 0), false, true)
  }

  function ResetSession<S, V>(m: Model<S, V>, s: Session<S>): Session<S> {
    Session(m.reset(s.model), [], Zeros(|s.logits|, 0), false, true)
  }

  function Evaluate<S, V>(m: Model<S, V>, s: Session<S>, token: nat): (Session<S>, bool) {
    var e := m.evaluate(s.model, token, s.logits);
    if e.ok then (Session(e.session, s.history + [token], e.logits, true, s.healthy), true)
    else (Session(e.session, s.history, e.logits, false, false), false)
  }

  datatype PrefillEnd = Prefilled | PrefillCancelled | PrefillFailed

  function Prefill<S, V>(m: Model<S, V>, s: Session<S>, tokens: seq<nat>, cancelled: nat -> bool,
                         poll: nat): (Session<S>, PrefillEnd)
    decreases |tokens|
  {
    if tokens == [] then (s, Prefilled)
    else if cancelled(poll) then (s, PrefillCancelled)
    else
      var (s', ok) := Evaluate(m, s, tokens[0]);
      if ok then Prefill(m, s', tokens[1..], cancelled, poll + 1) else (s', PrefillFailed)
  }

  /** The decode loop from iteration `index` on. */
  function Decode<S, V, R, E>(m: Model<S, V>, req: Request<R, E>, s: Session<S>, rng: R, heard: E,
                              index: nat, limit: nat, generated: seq<nat>, poll: nat)
    : (Session<S>, Result<Outcome, GenerationError>)
    decreases limit - index
  {
    if index >= limit then
      (s, Ok(Outcome(generated, if limit < req.config.maxNewTokens then ContextLength else MaxTokens)))
    else if req.cancelled(poll) then (s, Ok(Outcome(generated, Cancelled)))
    else
      var drawn := req.sampler.sample(rng, s.logits, s.history);
      if drawn.token == None then (s, Err(SamplingFailed))
      else
        var token := drawn.token.value;
        var (s', ok) := Evaluate(m, s, token);
        if !ok then (s', Err(ModelFailed))
        else
          var stop := token in req.config.stopTokens;
          var emitted := !stop || req.config.emitStop;
          var generated' := if emitted then generated + [token] else generated;
          var (heard', broke) := if emitted then req.listener.emit(heard, token, index) else (heard, false);
          if broke then (s', Ok(Outcome(generated', Callback)))
          else if stop then (s', Ok(Outcome(generated', StopToken(token))))
          else Decode(m, req, s', drawn.rng, heard', index + 1, limit, generated', poll + 1)
  }

  function RequestError<S, V, R, E>(m: Model<S, V>, req: Request<R, E>, s: Session<S>): Option<GenerationError> {
    if m.vocabulary == 0 || !req.config.valid then Some(InvalidConfig)
    else if !s.healthy then Some(SessionPoisoned)
    else if exists i | 0 <= i < |req.prompt| :: req.prompt[i] >= m.vocabulary then Some(TokenOutOfRange)
    else if m.position(s.model) > m.context || |req.prompt| > m.context - m.position(s.model) then
      Some(PromptExceedsContext)
    else if req.prompt == [] && !s.hasLogits then Some(EmptyPrompt)
    else None
  }

  function Limit<S, V, R, E>(m: Model<S, V>, req: Request<R, E>, s: Session<S>): nat
    requires RequestError(m, req, s) == None
  {
    var left := m.context - m.position(s.model) - |req.prompt|;
    if req.config.maxNewTokens < left then req.config.maxNewTokens else left
  }

  function Generate<S, V, R, E>(m: Model<S, V>, req: Request<R, E>,
                                s: Session<S>): (Session<S>, Result<Outcome, GenerationError>) {
    var error := RequestError(m, req, s);
    if error.Some? then (s, Err(error.value))
    else if req.cancelled(0) then (s, Ok(Outcome([], Cancelled)))
    else
      var (filled, end) := Prefill(m, s, req.prompt, req.cancelled, 1);
      match end
      case PrefillCancelled => (filled, Ok(Outcome([], Cancelled)))
      case PrefillFailed => (filled, Err(ModelFailed))
      case Prefilled =>
        Decode(m, req, filled, req.sampler.seeded, req.listener.start, 0, Limit(m, req, s), [], 1 + |req.prompt|)
  }

  // --- the object --------------------------------------------------------------------------

  class GenerationSession<S> {
    var model: S
    var history: seq<nat>
    var logits: seq<F32>
    var hasLogits: bool
    var healthy: bool

    function State(): Session<S>
      reads this
    {
      Session(model, history, logits, hasLogits, healthy)
    }

    constructor New<V>(m: Model<S, V>)
      ensures State() == NewSession(m)
    {
      model, history, logits, hasLogits, healthy := m.blank, [], Zeros(m.vocabulary, 0), false, true;
    }

    method Reset<V>(m: Model<S, V>)
      modifies this
      ensures State() == ResetSession(m, old(State()))
    {
      model := m.reset(model);
      history := [];
      logits := Zeros(|logits|, 0);
      hasLogits, healthy := false, true;
    }

    method EvaluateToken<V>(m: Model<S, V>, token: nat) returns (ok: bool)
      modifies this
      ensures (State(), ok) == Evaluate(m, old(State()), token)
    {
      var e := m.evaluate(model, token, logits);
      model, logits, ok := e.session, e.logits, e.ok;
      if !ok {
        healthy, hasLogits := false, false;
        return;
      }
      history := history + [token];
      hasLogits := true;
    }

    /** The prefill and decode loops, with every way out. */
    method GenerateStream<V, R, E>(m: Model<S, V>, req: Request<R, E>) returns (r: Result<Outcome, GenerationError>)
      modifies this
      ensures (State(), r) == Generate(m, req, old(State()))
    {
      ghost var s0 := State();
      if m.vocabulary == 0 || !req.config.valid {
        return Err(InvalidConfig);
      }
      if !healthy {
        return Err(SessionPoisoned);
      }
      for i := 0 to |req.prompt|
        invariant forall j | 0 <= j < i :: req.prompt[j] < m.vocabulary
      {
        if req.prompt[i] >= m.vocabulary {
          return Err(TokenOutOfRange);
        }
      }
      var position := m.position(model);
      if position > m.context || |req.prompt| > m.context - position {
        return Err(PromptExceedsContext);
      }
      if req.prompt == [] && !hasLogits {
        return Err(EmptyPrompt);
      }
      var left := m.context - position - |req.prompt|;
      var limit := if req.config.maxNewTokens < left then req.config.maxNewTokens else left;
      if req.cancelled(0) {
        return Ok(Outcome([], Cancelled));
      }
      for i := 0 to |req.prompt|
        invariant Prefill(m, State(), req.prompt[i..], req.cancelled, 1 + i) ==
                    Prefill(m, s0, req.prompt, req.cancelled, 1)
      {
        assert req.prompt[i..][1..] == req.prompt[i + 1..];
        if req.cancelled(1 + i) {
          return Ok(Outcome([], Cancelled));
        }
        var ok := EvaluateToken(m, req.prompt[i]);
        if !ok {
          return Err(ModelFailed);
        }
      }
      r := DecodeStream(m, req, limit);
    }

    method DecodeStream<V, R, E>(m: Model<S, V>, req: Request<R, E>, limit: nat)
      returns (r: Result<Outcome, GenerationError>)
      modifies this
      ensures (State(), r) ==
              Decode(m, req, old(State()), req.sampler.seeded, req.listener.start, 0, limit, [], 1 + |req.prompt|)
    {
      var rng, heard, generated := req.sampler.seeded, req.listener.start, [];
      ghost var result := Decode(m, req, State(), rng, heard, 0, limit, [], 1 + |req.prompt|);
      for index := 0 to limit
        invariant Decode(m, req, State(), rng, heard, index, limit, generated, 1 + |req.prompt| + index) == result
      {
        if req.cancelled(1 + |req.prompt| + index) {
          return Ok(Outcome(generated, Cancelled));
        }
        var drawn := req.sampler.sample(rng, logits, history);
        if drawn.token == None {
          return Err(SamplingFailed);
        }
        var token := drawn.token.value;
        var ok := EvaluateToken(m, token);
        if !ok {
          return Err(ModelFailed);
        }
        rng := drawn.rng;
        var stop := token in req.config.stopTokens;
        if !stop || req.config.emitStop {
          generated := generated + [token];
          var (heard', broke) := req.listener.emit(heard, token, index);
          heard := heard';
          if broke {
            return Ok(Outcome(generated, Callback));
          }
        }
        if stop {
          return Ok(Outcome(generated, StopToken(token)));
        }
      }
      r := Ok(Outcome(generated, if limit < req.config.maxNewTokens then ContextLength else MaxTokens));
    }
  }
}
