/** Reusing a cached prefix is invisible: continuing a session is the same as starting over. */
module PrefixReuse {
  import opened Common
  import opened Generation

  /** The model cannot tell the two states apart. */
  ghost predicate SameView<S, V>(m: Model<S, V>, s: S, t: S) {
    m.view(s) == m.view(t)
  }

  ghost predicate SameEvaluation<S, V>(m: Model<S, V>, s: S, t: S, token: nat, a: seq<F32>, b: seq<F32>) {
    var x, y := m.evaluate(s, token, a), m.evaluate(t, token, b);
    x.ok == y.ok && SameView(m, x.session, y.session) && (x.ok ==> x.logits == y.logits)
  }

  /** A deterministic causal model: results depend on the view only, a reset forgets
      everything, and a token is evaluated only inside the vocabulary and the context. */
  ghost predicate Causal<S(!new), V>(m: Model<S, V>) {
    m.position(m.blank) == 0 &&
    (forall s: S :: SameView(m, m.reset(s), m.blank)) &&
    (forall s: S, t: S | SameView(m, s, t) :: m.position(s) == m.position(t)) &&
    (forall s: S, token: nat, logits: seq<F32> | |logits| == m.vocabulary ::
       var e := m.evaluate(s, token, logits);
       |e.logits| == m.vocabulary &&
       (e.ok ==> token < m.vocabulary && m.position(s) < m.context && m.position(e.session) == m.position(s) + 1)) &&
    (forall s: S, t: S, token: nat, a: seq<F32>, b: seq<F32> |
       SameView(m, s, t) && |a| == m.vocabulary && |b| == m.vocabulary :: SameEvaluation(m, s, t, token, a, b))
  }

  /** Two sessions that no later call can tell apart. */
  ghost predicate Agree<S, V>(m: Model<S, V>, s: Session<S>, t: Session<S>) {
    SameView(m, s.model, t.model) && s.history == t.history && s.hasLogits == t.hasLogits &&
    s.healthy == t.healthy && |s.logits| == m.vocabulary && |t.logits| == m.vocabulary &&
    (s.hasLogits ==> s.logits == t.logits)
  }

  function Never(): nat -> bool {
    poll => false
  }

  /** A healthy session is indistinguishable from one that evaluated its history from scratch. */
  ghost predicate Replayable<S, V>(m: Model<S, V>, s: Session<S>) {
    |s.logits| == m.vocabulary &&
    (s.healthy ==>
       var (t, end) := Prefill(m, NewSession(m), s.history, Never(), 0);
       end == Prefilled && Agree(m, s, t))
  }

  // --- evaluation and prefill ----------------------------------------------------------------

  lemma EvaluateAgrees<S(!new), V>(m: Model<S, V>, s: Session<S>, t: Session<S>, token: nat)
    requires Causal(m) && Agree(m, s, t)
    ensures Evaluate(m, s, token).1 == Evaluate(m, t, token).1
    ensures Agree(m, Evaluate(m, s, token).0, Evaluate(m, t, token).0)
  {
    assert SameEvaluation(m, s.model, t.model, token, s.logits, t.logits);
  }

  lemma {:induction false} PrefillAgrees<S(!new), V>(m: Model<S, V>, s: Session<S>, t: Session<S>, tokens: seq<nat>,
                                                     poll: nat, poll': nat)
    requires Causal(m) && Agree(m, s, t)
    ensures var (s', a) := Prefill(m, s, tokens, Never(), poll);
            var (t', b) := Prefill(m, t, tokens, Never(), poll');
            a == b && Agree(m, s', t') && !a.PrefillCancelled?
    decreases |tokens|
  {
    if tokens != [] {
      EvaluateAgrees(m, s, t, tokens[0]);
      PrefillAgrees(m, Evaluate(m, s, tokens[0]).0, Evaluate(m, t, tokens[0]).0, tokens[1..], poll + 1, poll' + 1);
    }
  }

  lemma {:induction false} PrefillConcat<S, V>(m: Model<S, V>, s: Session<S>, a: seq<nat>, b: seq<nat>, poll: nat)
    requires Prefill(m, s, a, Never(), poll).1 == Prefilled
    ensures Prefill(m, s, a + b, Never(), poll) == Prefill(m, Prefill(m, s, a, Never(), poll).0, b, Never(), poll + |a|)
    decreases |a|
  {
    if a == [] {
      assert a + b == b;
    } else {
      PrefillConcat(m, Evaluate(m, s, a[0]).0, a[1..], b, poll + 1);
      assert (a + b)[1..] == a[1..] + b;
    }
  }

  /** What evaluating a token sequence from scratch leaves behind. */
  lemma {:induction false} PrefillFacts<S(!new), V>(m: Model<S, V>, s: Session<S>, tokens: seq<nat>, poll: nat)
    requires Causal(m) && |s.logits| == m.vocabulary && s.healthy && Prefill(m, s, tokens, Never(), poll).1 == Prefilled
    ensures var t := Prefill(m, s, tokens, Never(), poll).0;
            t.history == s.history + tokens && t.healthy && |t.logits| == m.vocabulary &&
            t.hasLogits == (s.hasLogits || tokens != []) &&
            m.position(t.model) == m.position(s.model) + |tokens| &&
            (tokens != [] ==> m.position(t.model) <= m.context) &&
            forall i | 0 <= i < |tokens| :: tokens[i] < m.vocabulary
    decreases |tokens|
  {
    if tokens == [] {
      assert s.history + tokens == s.history;
    } else {
      var s' := Evaluate(m, s, tokens[0]).0;
      PrefillFacts(m, s', tokens[1..], poll + 1);
      assert tokens == [tokens[0]] + tokens[1..];
      assert s.history + [tokens[0]] + tokens[1..] == s.history + tokens;
    }
  }

  /** The session invariants export and restore rely on follow from replayability. */
  lemma HealthyFacts<S(!new), V>(m: Model<S, V>, s: Session<S>)
    requires Causal(m) && Replayable(m, s) && s.healthy
    ensures |s.history| == m.position(s.model) <= m.context
    ensures s.hasLogits <==> s.history != []
    ensures forall i | 0 <= i < |s.history| :: s.history[i] < m.vocabulary
  {
    PrefillFacts(m, NewSession(m), s.history, 0);
  }

  // --- decoding --------------------------------------------------------------------------------

  ghost predicate Uninterrupted<R, E>(req: Request<R, E>) {
    forall poll :: !req.cancelled(poll)
  }

  /** Equal results, or equal errors, and sessions that agree. */
  ghost predicate SameRun<S, V>(m: Model<S, V>, a: (Session<S>, Result<Outcome, GenerationError>),
                                b: (Session<S>, Result<Outcome, GenerationError>)) {
    a.1 == b.1 && Agree(m, a.0, b.0)
  }

  lemma {:induction false} DecodeAgrees<S(!new), V, R, E>(
    m: Model<S, V>, req: Request<R, E>, req': Request<R, E>, s: Session<S>, t: Session<S>, rng: R, heard: E,
    index: nat, limit: nat, generated: seq<nat>, poll: nat, poll': nat)
    requires Causal(m) && Agree(m, s, t) && s.hasLogits
    requires req' == req.(prompt := req'.prompt) && Uninterrupted(req)
    ensures SameRun(m, Decode(m, req, s, rng, heard, index, limit, generated, poll),
                       Decode(m, req', t, rng, heard, index, limit, generated, poll'))
    decreases limit - index
  {
    if index < limit {
      var drawn := req.sampler.sample(rng, s.logits, s.history);
      if drawn.token.Some? {
        var token := drawn.token.value;
        EvaluateAgrees(m, s, t, token);
        var (s', ok) := Evaluate(m, s, token);
        var t' := Evaluate(m, t, token).0;
        var stop := token in req.config.stopTokens;
        var emitted := !stop || req.config.emitStop;
        var generated' := if emitted then generated + [token] else generated;
        var (heard', broke) := if emitted then req.listener.emit(heard, token, index) else (heard, false);
        if ok && !broke && !stop {
          DecodeAgrees(m, req, req', s', t', drawn.rng, heard', index + 1, limit, generated', poll + 1, poll' + 1);
        }
      }
    }
  }

  // --- the theorem -------------------------------------------------------------------------------

  lemma PrefillCancelIrrelevant<S, V>(m: Model<S, V>, s: Session<S>, tokens: seq<nat>, cancelled: nat -> bool,
                                      poll: nat)
    requires forall p :: !cancelled(p)
    ensures Prefill(m, s, tokens, cancelled, poll) == Prefill(m, s, tokens, Never(), poll)
    decreases |tokens|
  {
    if tokens != [] {
      PrefillCancelIrrelevant(m, Evaluate(m, s, tokens[0]).0, tokens[1..], cancelled, poll + 1);
    }
  }

  /** Both requests are rejected for the same reason or both start decoding with the same limit. */
  lemma SameChecks<S(!new), V, R, E>(m: Model<S, V>, req: Request<R, E>, s: Session<S>)
    requires Causal(m) && Replayable(m, s) && s.healthy && s.history <= req.prompt
    ensures var suffix := req.(prompt := req.prompt[|s.history|..]);
            RequestError(m, suffix, s) == RequestError(m, req, NewSession(m)) &&
            (RequestError(m, suffix, s) == None ==> Limit(m, suffix, s) == Limit(m, req, NewSession(m)))
  {
    HealthyFacts(m, s);
    var n := |s.history|;
    assert (exists i | 0 <= i < |req.prompt| :: req.prompt[i] >= m.vocabulary) <==>
           (exists i | 0 <= i < |req.prompt[n..]| :: req.prompt[n..][i] >= m.vocabulary) by {
      if i :| 0 <= i < |req.prompt| && req.prompt[i] >= m.vocabulary {
        assert forall j | 0 <= j < n :: req.prompt[j] == s.history[j];
        assert req.prompt[n..][i - n] == req.prompt[i];
      }
    }
  }

  /** Prefix reuse is invisible. For every replayable healthy session whose history starts the
      prompt, generating from the remaining tokens and generating afresh from the whole prompt
      give the same tokens and stop reason, or the same error. Unless the request was refused
      outright, the sessions they leave agree on history, logits, health and everything the
      model will ever look at. */
  lemma PrefixReuseInvisible<S(!new), V, R, E>(m: Model<S, V>, req: Request<R, E>, s: Session<S>)
    requires Causal(m) && Replayable(m, s) && s.healthy && s.history <= req.prompt && Uninterrupted(req)
    ensures var continued := Generate(m, req.(prompt := req.prompt[|s.history|..]), s);
            var restarted := Generate(m, req, NewSession(m));
            if RequestError(m, req, NewSession(m)) == None then SameRun(m, continued, restarted)
            else continued.1 == restarted.1 && continued.0 == s && restarted.0 == NewSession(m)
  {
    SameChecks(m, req, s);
    if RequestError(m, req, NewSession(m)) == None {
      StartedReuse(m, req, s);
    }
  }

  lemma StartedReuse<S(!new), V, R, E>(m: Model<S, V>, req: Request<R, E>, s: Session<S>)
    requires Causal(m) && Replayable(m, s) && s.healthy && s.history <= req.prompt && Uninterrupted(req)
    requires RequestError(m, req, NewSession(m)) == None
    ensures SameRun(m, Generate(m, req.(prompt := req.prompt[|s.history|..]), s), Generate(m, req, NewSession(m)))
  {
    var suffix := req.prompt[|s.history|..];
    var req' := req.(prompt := suffix);
    SameChecks(m, req, s);
    PrefillReused(m, s, req.prompt, req.cancelled);
    var (filled, end) := Prefill(m, s, suffix, req.cancelled, 1);
    var (refilled, end') := Prefill(m, NewSession(m), req.prompt, req.cancelled, 1);
    StartedRun(m, req', s);
    StartedRun(m, req, NewSession(m));
    if end == Prefilled {
      PrefillCancelIrrelevant(m, s, suffix, req.cancelled, 1);
      PrefillFacts(m, s, suffix, 1);
      DecodeAgrees(m, req', req, filled, refilled, req.sampler.seeded, req.listener.start, 0, Limit(m, req', s), [],
                   1 + |suffix|, 1 + |req.prompt|);
    }
  }

  /** One chat turn: a session whose history does not start the prompt is reset first, and only
      the tokens after the cached ones are evaluated. */
  function Turn<S, V, R, E>(m: Model<S, V>, req: Request<R, E>,
                            s: Session<S>): (Session<S>, Result<Outcome, GenerationError>) {
    var ready := if s.history <= req.prompt then s else ResetSession(m, s);
    Generate(m, req.(prompt := req.prompt[|ready.history|..]), ready)
  }

  /** A chat turn on any replayable session answers like a turn on a new session, unless the
      session is poisoned and its history starts the prompt; a poisoned session with any other
      history is reset and so healed. */
  lemma TurnLikeNew<S(!new), V, R, E>(m: Model<S, V>, req: Request<R, E>, s: Session<S>)
    requires Causal(m) && Replayable(m, s) && Uninterrupted(req)
    ensures s.healthy || !(s.history <= req.prompt) ==>
              Turn(m, req, s).1 == Turn(m, req, NewSession(m)).1 &&
              (RequestError(m, req, NewSession(m)) == None ==> SameRun(m, Turn(m, req, s), Turn(m, req, NewSession(m))))
    ensures !s.healthy && s.history <= req.prompt ==>
              Turn(m, req, s).0 == s && Turn(m, req, s).1 in {Err(InvalidConfig), Err(SessionPoisoned)}
  {
    assert req.prompt[0..] == req.prompt;
    if !(s.history <= req.prompt) {
      BlankReplayable(m, ResetSession(m, s));
      PrefixReuseInvisible(m, req, ResetSession(m, s));
    } else if s.healthy {
      PrefixReuseInvisible(m, req, s);
    }
  }

  /** A request that passes the checks and is not cancelled prefills, then decodes. */
  lemma StartedRun<S, V, R, E>(m: Model<S, V>, req: Request<R, E>, s: Session<S>)
    requires RequestError(m, req, s) == None && Uninterrupted(req)
    ensures var (filled, end) := Prefill(m, s, req.prompt, req.cancelled, 1);
            (end == Prefilled ==>
               Generate(m, req, s) ==
                 Decode(m, req, filled, req.sampler.seeded, req.listener.start, 0, Limit(m, req, s), [],
                        1 + |req.prompt|)) &&
            (end == PrefillFailed ==> Generate(m, req, s) == (filled, Err(ModelFailed)))
  {}

  /** Evaluating the remaining tokens ends like evaluating the whole prompt from scratch. */
  lemma PrefillReused<S(!new), V>(m: Model<S, V>, s: Session<S>, prompt: seq<nat>, cancelled: nat -> bool)
    requires Causal(m) && Replayable(m, s) && s.healthy && s.history <= prompt && forall p :: !cancelled(p)
    ensures var (filled, end) := Prefill(m, s, prompt[|s.history|..], cancelled, 1);
            var (refilled, end') := Prefill(m, NewSession(m), prompt, cancelled, 1);
            end == end' && !end.PrefillCancelled? && Agree(m, filled, refilled)
  {
    var h, suffix := s.history, prompt[|s.history|..];
    var t := Prefill(m, NewSession(m), h, Never(), 0).0;
    RestartSplits(m, h, prompt, cancelled);
    PrefillCancelIrrelevant(m, s, suffix, cancelled, 1);
    PrefillAgrees(m, s, t, suffix, 1, 1 + |h|);
  }

  lemma RestartSplits<S, V>(m: Model<S, V>, h: seq<nat>, prompt: seq<nat>, cancelled: nat -> bool)
    requires h <= prompt && forall p :: !cancelled(p)
    requires Prefill(m, NewSession(m), h, Never(), 0).1 == Prefilled
    ensures Prefill(m, NewSession(m), prompt, cancelled, 1)
         == Prefill(m, Prefill(m, NewSession(m), h, Never(), 0).0, prompt[|h|..], Never(), 1 + |h|)
  {
    assert prompt == h + prompt[|h|..];
    PrefillPollIrrelevant(m, NewSession(m), h, 0, 1);
    PrefillConcat(m, NewSession(m), h, prompt[|h|..], 1);
    PrefillCancelIrrelevant(m, NewSession(m), prompt, cancelled, 1);
  }

  lemma PrefillPollIrrelevant<S, V>(m: Model<S, V>, s: Session<S>, tokens: seq<nat>, poll: nat, poll': nat)
    ensures Prefill(m, s, tokens, Never(), poll) == Prefill(m, s, tokens, Never(), poll')
    decreases |tokens|
  {
    if tokens != [] {
      PrefillPollIrrelevant(m, Evaluate(m, s, tokens[0]).0, tokens[1..], poll + 1, poll' + 1);
    }
  }

  // --- every session a caller can get is replayable ------------------------------------------------

  lemma BlankReplayable<S(!new), V>(m: Model<S, V>, s: Session<S>)
    requires Causal(m) && SameView(m, s.model, m.blank) && s.history == [] && !s.hasLogits && s.healthy
    requires |s.logits| == m.vocabulary
    ensures Replayable(m, s)
  {}

  lemma EvaluateReplayable<S(!new), V>(m: Model<S, V>, s: Session<S>, token: nat)
    requires Causal(m) && Replayable(m, s) && s.healthy
    ensures Replayable(m, Evaluate(m, s, token).0)
  {
    var (s', ok) := Evaluate(m, s, token);
    if ok {
      var t := Prefill(m, NewSession(m), s.history, Never(), 0).0;
      EvaluateAgrees(m, s, t, token);
      PrefillConcat(m, NewSession(m), s.history, [token], 0);
      OneToken(m, t, token, |s.history|);
    }
  }

  lemma OneToken<S, V>(m: Model<S, V>, t: Session<S>, token: nat, poll: nat)
    requires Evaluate(m, t, token).1
    ensures Prefill(m, t, [token], Never(), poll) == (Evaluate(m, t, token).0, Prefilled)
  {
    assert [token][1..] == [];
  }

  lemma {:induction false} PrefillReplayable<S(!new), V>(m: Model<S, V>, s: Session<S>, tokens: seq<nat>,
                                                         cancelled: nat -> bool, poll: nat)
    requires Causal(m) && Replayable(m, s) && s.healthy
    ensures Replayable(m, Prefill(m, s, tokens, cancelled, poll).0)
    ensures Prefill(m, s, tokens, cancelled, poll).1 == Prefilled ==> Prefill(m, s, tokens, cancelled, poll).0.healthy
    decreases |tokens|
  {
    if tokens != [] && !cancelled(poll) {
      EvaluateReplayable(m, s, tokens[0]);
      var (s', ok) := Evaluate(m, s, tokens[0]);
      if ok {
        PrefillReplayable(m, s', tokens[1..], cancelled, poll + 1);
      }
    }
  }

  lemma {:induction false} DecodeReplayable<S(!new), V, R, E>(
    m: Model<S, V>, req: Request<R, E>, s: Session<S>, rng: R, heard: E, index: nat, limit: nat, generated: seq<nat>,
    poll: nat)
    requires Causal(m) && Replayable(m, s) && s.healthy
    ensures Replayable(m, Decode(m, req, s, rng, heard, index, limit, generated, poll).0)
    decreases limit - index
  {
    if index < limit && !req.cancelled(poll) {
      var drawn := req.sampler.sample(rng, s.logits, s.history);
      if drawn.token.Some? {
        var token := drawn.token.value;
        EvaluateReplayable(m, s, token);
        var (s', ok) := Evaluate(m, s, token);
        var stop := token in req.config.stopTokens;
        var emitted := !stop || req.config.emitStop;
        var generated' := if emitted then generated + [token] else generated;
        var (heard', broke) := if emitted then req.listener.emit(heard, token, index) else (heard, false);
        if ok && !broke && !stop {
          DecodeReplayable(m, req, s', drawn.rng, heard', index + 1, limit, generated', poll + 1);
        }
      }
    }
  }

  /** Cancelled, stopped, failed or complete: a call leaves a replayable session. */
  lemma GenerateReplayable<S(!new), V, R, E>(m: Model<S, V>, req: Request<R, E>, s: Session<S>)
    requires Causal(m) && Replayable(m, s)
    ensures Replayable(m, Generate(m, req, s).0)
  {
    if RequestError(m, req, s) == None && !req.cancelled(0) {
      PrefillReplayable(m, s, req.prompt, req.cancelled, 1);
      var (filled, end) := Prefill(m, s, req.prompt, req.cancelled, 1);
      if end == Prefilled {
        DecodeReplayable(m, req, filled, req.sampler.seeded, req.listener.start, 0, Limit(m, req, s), [],
                         1 + |req.prompt|);
      }
    }
  }

  lemma TurnReplayable<S(!new), V, R, E>(m: Model<S, V>, req: Request<R, E>, s: Session<S>)
    requires Causal(m) && Replayable(m, s)
    ensures Replayable(m, Turn(m, req, s).0)
  {
    BlankReplayable(m, ResetSession(m, s));
    var ready := if s.history <= req.prompt then s else ResetSession(m, s);
    GenerateReplayable(m, req.(prompt := req.prompt[|ready.history|..]), ready);
  }

  /** What a caller can do with a session. */
  datatype Call<!S, !R, !E> = Reset | Run(req: Request<R, E>) | Restore(copy: Session<S>)

  function Step<S, V, R, E>(m: Model<S, V>, s: Session<S>, call: Call<S, R, E>): Session<S> {
    match call
    case Reset => ResetSession(m, s)
    case Run(req) => Generate(m, req, s).0
    case Restore(copy) => copy
  }

  ghost function After<S, V, R, E>(m: Model<S, V>, s: Session<S>, calls: seq<Call<S, R, E>>): Session<S>
    decreases |calls|
  {
    if calls == [] then s else After(m, Step(m, s, calls[0]), calls[1..])
  }

  /** Only sessions that were themselves replayable are restored: genuine exports are (see
      `SaveAndRestore`), arbitrary accepted bytes need not be. */
  ghost predicate GenuineRestores<S, V, R, E>(m: Model<S, V>, calls: seq<Call<S, R, E>>) {
    forall i | 0 <= i < |calls| && calls[i].Restore? :: Replayable(m, calls[i].copy)
  }

  lemma {:induction false} CallsReplayable<S(!new), V, R, E>(m: Model<S, V>, s: Session<S>, calls: seq<Call<S, R, E>>)
    requires Causal(m) && Replayable(m, s) && GenuineRestores(m, calls)
    ensures Replayable(m, After(m, s, calls))
    decreases |calls|
  {
    if calls != [] {
      match calls[0] {
        case Reset => BlankReplayable(m, ResetSession(m, s));
        case Run(req) => GenerateReplayable(m, req, s);
        case Restore(copy) =>
      }
      CallsReplayable(m, Step(m, s, calls[0]), calls[1..]);
    }
  }
}
