/** What every session satisfies, however it came about: replayed, generated, or restored from
    any byte string that the format accepts. */
module SessionInvariant {
  import opened Common
  import opened Generation
  import opened PrefixReuse

  /** A healthy session's history has as many tokens as the model has positions, all of them in
      the vocabulary, and it has logits exactly when it has history. */
  ghost predicate WellFormed<S, V>(m: Model<S, V>, s: Session<S>) {
    |s.logits| == m.vocabulary &&
    (s.healthy ==>
       |s.history| == m.position(s.model) <= m.context && (s.hasLogits <==> s.history != []) &&
       forall i | 0 <= i < |s.history| :: s.history[i] < m.vocabulary)
  }

  lemma NewWellFormed<S(!new), V>(m: Model<S, V>)
    requires Causal(m)
    ensures WellFormed(m, NewSession(m))
  {}

  lemma ResetWellFormed<S(!new), V>(m: Model<S, V>, s: Session<S>)
    requires Causal(m) && WellFormed(m, s)
    ensures WellFormed(m, ResetSession(m, s)) && ResetSession(m, s).healthy
  {
    assert SameView(m, m.reset(s.model), m.blank);
  }

  /** Nothing of what was said before is left: no history, all logits zero and not to be used. */
  lemma ResetIsBlank<S, V>(m: Model<S, V>, s: Session<S>)
    ensures var blank := ResetSession(m, s);
            blank.history == [] && !blank.hasLogits && blank.healthy && blank.model == m.reset(s.model) &&
            |blank.logits| == |s.logits| && forall i | 0 <= i < |blank.logits| :: blank.logits[i] == 0
    ensures |s.logits| == m.vocabulary ==> ResetSession(m, s) == NewSession(m).(model := m.reset(s.model))
  {}

  lemma EvaluateWellFormed<S(!new), V>(m: Model<S, V>, s: Session<S>, token: nat)
    requires Causal(m) && WellFormed(m, s) && s.healthy
    ensures WellFormed(m, Evaluate(m, s, token).0)
  {}

  lemma {:induction false} PrefillWellFormed<S(!new), V>(
    m: Model<S, V>, s: Session<S>, tokens: seq<nat>, cancelled: nat -> bool, poll: nat)
    requires Causal(m) && WellFormed(m, s) && s.healthy
    ensures WellFormed(m, Prefill(m, s, tokens, cancelled, poll).0)
    ensures Prefill(m, s, tokens, cancelled, poll).1 == Prefilled ==> Prefill(m, s, tokens, cancelled, poll).0.healthy
    decreases |tokens|
  {
    if tokens != [] && !cancelled(poll) {
      EvaluateWellFormed(m, s, tokens[0]);
      var (next, ok) := Evaluate(m, s, tokens[0]);
      if ok {
        PrefillWellFormed(m, next, tokens[1..], cancelled, poll + 1);
      }
    }
  }

  lemma {:induction false} DecodeWellFormed<S(!new), V, R, E>(
    m: Model<S, V>, req: Request<R, E>, s: Session<S>, rng: R, heard: E,
    index: nat, limit: nat, generated: seq<nat>, poll: nat)
    requires Causal(m) && WellFormed(m, s) && s.healthy
    ensures WellFormed(m, Decode(m, req, s, rng, heard, index, limit, generated, poll).0)
    decreases limit - index
  {
    if index < limit && !req.cancelled(poll) {
      var drawn := req.sampler.sample(rng, s.logits, s.history);
      if drawn.token.Some? {
        var token := drawn.token.value;
        EvaluateWellFormed(m, s, token);
        var (next, ok) := Evaluate(m, s, token);
        var stop := token in req.config.stopTokens;
        var emitted := !stop || req.config.emitStop;
        var generated' := if emitted then generated + [token] else generated;
        var (heard', broke) := if emitted then req.listener.emit(heard, token, index) else (heard, false);
        if ok && !broke && !stop {
          DecodeWellFormed(m, req, next, drawn.rng, heard', index + 1, limit, generated', poll + 1);
        }
      }
    }
  }

  /** Cancelled, stopped, failed or complete: a call leaves a well-formed session. */
  lemma GenerateWellFormed<S(!new), V, R, E>(m: Model<S, V>, req: Request<R, E>, s: Session<S>)
    requires Causal(m) && WellFormed(m, s)
    ensures WellFormed(m, Generate(m, req, s).0)
  {
    if RequestError(m, req, s) == None && !req.cancelled(0) {
      PrefillWellFormed(m, s, req.prompt, req.cancelled, 1);
      var (filled, end) := Prefill(m, s, req.prompt, req.cancelled, 1);
      if end == Prefilled {
        DecodeWellFormed(m, req, filled, req.sampler.seeded, req.listener.start, 0, Limit(m, req, s), [],
                         1 + |req.prompt|);
      }
    }
  }

  lemma TurnWellFormed<S(!new), V, R, E>(m: Model<S, V>, req: Request<R, E>, s: Session<S>)
    requires Causal(m) && WellFormed(m, s)
    ensures WellFormed(m, Turn(m, req, s).0)
  {
    ResetWellFormed(m, s);
    var ready := if s.history <= req.prompt then s else ResetSession(m, s);
    GenerateWellFormed(m, req.(prompt := req.prompt[|ready.history|..]), ready);
  }

  /** A restore may bring in any healthy well-formed session, whatever bytes it was read from. */
  ghost predicate SoundRestores<S, V, R, E>(m: Model<S, V>, calls: seq<Call<S, R, E>>) {
    forall i | 0 <= i < |calls| && calls[i].Restore? :: WellFormed(m, calls[i].copy) && calls[i].copy.healthy
  }

  lemma {:induction false} CallsWellFormed<S(!new), V, R, E>(m: Model<S, V>, s: Session<S>, calls: seq<Call<S, R, E>>)
    requires Causal(m) && WellFormed(m, s) && SoundRestores(m, calls)
    ensures WellFormed(m, After(m, s, calls))
    decreases |calls|
  {
    if calls != [] {
      match calls[0] {
        case Reset => ResetWellFormed(m, s);
        case Run(req) => GenerateWellFormed(m, req, s);
        case Restore(copy) =>
      }
      CallsWellFormed(m, Step(m, s, calls[0]), calls[1..]);
    }
  }

  /** Reachable sessions, in closed form: whatever was called and whatever was restored, the
      session is well formed. */
  lemma ReachableSessions<S(!new), V, R, E>(m: Model<S, V>, calls: seq<Call<S, R, E>>)
    requires Causal(m) && SoundRestores(m, calls)
    ensures WellFormed(m, After(m, NewSession(m), calls))
  {
    NewWellFormed(m);
    CallsWellFormed(m, NewSession(m), calls);
  }
}
