/** What a generation call says about the model, the sampler, the listener and the canceller: an
    account of every call that does not mention the generation loops, and the proof that a call
    returns exactly what its account says. */
module GenerationOutcome {
  import opened Common
  import opened Generation
  import PrefixReuse

  // --- tokens and the states they lead to ---------------------------------------------------

  /** The session after the model took `token`: the history grows by it, and the logits are those
      the model produced for it. */
  ghost function Grown<S, V>(m: Model<S, V>, s: Session<S>, token: nat): Session<S> {
    var e := m.evaluate(s.model, token, s.logits);
    Session(e.session, s.history + [token], e.logits, true, s.healthy)
  }

  /** The session after the model refused `token`: unusable, and without logits. */
  ghost function Poisoned<S, V>(m: Model<S, V>, s: Session<S>, token: nat): Session<S> {
    var e := m.evaluate(s.model, token, s.logits);
    Session(e.session, s.history, e.logits, false, false)
  }

  predicate Takes<S, V>(m: Model<S, V>, s: Session<S>, token: nat) {
    m.evaluate(s.model, token, s.logits).ok
  }

  /** The session after the first `n` tokens. */
  ghost function StateAt<S, V>(m: Model<S, V>, s: Session<S>, tokens: seq<nat>, n: nat): Session<S>
    requires n <= |tokens|
  {
    if n == 0 then s else Grown(m, StateAt(m, s, tokens, n - 1), tokens[n - 1])
  }

  /** The sampler after it drew the first `n` tokens. */
  ghost function RngAt<S, V, R, E>(m: Model<S, V>, req: Request<R, E>, s: Session<S>, tokens: seq<nat>, n: nat): R
    requires n <= |tokens|
    decreases n, 0
  {
    if n == 0 then req.sampler.seeded else Draw(m, req, s, tokens, n - 1).rng
  }

  /** The draw after the first `n` tokens, from the logits and the history they led to. */
  ghost function Draw<S, V, R, E>(m: Model<S, V>, req: Request<R, E>, s: Session<S>, tokens: seq<nat>, n: nat)
    : Sampled<R>
    requires n <= |tokens|
    decreases n, 1
  {
    var before := StateAt(m, s, tokens, n);
    req.sampler.sample(RngAt(m, req, s, tokens, n), before.logits, before.history)
  }

  /** The listener after it was told the first `n` tokens in order. */
  ghost function Heard<E>(listener: Listener<E>, tokens: seq<nat>, n: nat): E
    requires n <= |tokens|
  {
    if n == 0 then listener.start else listener.emit(Heard(listener, tokens, n - 1), tokens[n - 1], n - 1).0
  }

  /** The listener's answer to token `i`. */
  ghost predicate AskedToStop<E>(listener: Listener<E>, tokens: seq<nat>, i: nat)
    requires i < |tokens|
  {
    listener.emit(Heard(listener, tokens, i), tokens[i], i).1
  }

  // --- why decoding ends ----------------------------------------------------------------------

  predicate EndsInStop(config: Config, drawn: seq<nat>) {
    drawn != [] && drawn[|drawn| - 1] in config.stopTokens
  }

  /** A stop token is reported only on request. */
  function Shown(config: Config, drawn: seq<nat>): (r: seq<nat>)
    ensures |r| == |drawn| || |r| + 1 == |drawn|
  {
    if EndsInStop(config, drawn) && !config.emitStop then drawn[..|drawn| - 1] else drawn
  }

  /** The last token was shown, and the listener asked to stop. */
  ghost predicate BrokenOff<R, E>(req: Request<R, E>, drawn: seq<nat>) {
    drawn != [] && Shown(req.config, drawn) == drawn && AskedToStop(req.listener, drawn, |drawn| - 1)
  }

  /** Why decoding ends after `drawn`, or `None` when it goes on. Poll `first + i` precedes draw `i`. */
  ghost function Reason<R, E>(req: Request<R, E>, first: nat, limit: nat, drawn: seq<nat>): Option<StopReason> {
    if BrokenOff(req, drawn) then Some(Callback)
    else if EndsInStop(req.config, drawn) then Some(StopToken(drawn[|drawn| - 1]))
    else if |drawn| >= limit then Some(if limit < req.config.maxNewTokens then ContextLength else MaxTokens)
    else if req.cancelled(first + |drawn|) then Some(Cancelled)
    else None
  }

  /** Token `i` of `drawn` is what the sampler drew there, the model took it, and nothing had ended
      decoding before. */
  ghost predicate Drew<S, V, R, E>(m: Model<S, V>, req: Request<R, E>, s: Session<S>, first: nat, limit: nat,
                                   drawn: seq<nat>, i: nat)
    requires i < |drawn|
  {
    Reason(req, first, limit, drawn[..i]) == None && Draw(m, req, s, drawn, i).token == Some(drawn[i]) &&
    Takes(m, StateAt(m, s, drawn, i), drawn[i])
  }

  ghost predicate DrawnInOrder<S, V, R, E>(m: Model<S, V>, req: Request<R, E>, s: Session<S>, first: nat, limit: nat,
                                           drawn: seq<nat>)
  {
    forall i: nat | i < |drawn| :: Drew(m, req, s, first, limit, drawn, i)
  }

  /** Decoding stands at `drawn` and gets no further: there is a reason to end, nothing can be
      sampled, or the model refuses what was sampled. */
  ghost predicate Ended<S, V, R, E>(m: Model<S, V>, req: Request<R, E>, s: Session<S>, first: nat, limit: nat,
                                    drawn: seq<nat>)
  {
    DrawnInOrder(m, req, s, first, limit, drawn) &&
    (Reason(req, first, limit, drawn).Some? || Draw(m, req, s, drawn, |drawn|).token == None ||
     !Takes(m, StateAt(m, s, drawn, |drawn|), Draw(m, req, s, drawn, |drawn|).token.value))
  }

  /** What is reported then. */
  ghost function Report<S, V, R, E>(m: Model<S, V>, req: Request<R, E>, s: Session<S>, first: nat, limit: nat,
                                    drawn: seq<nat>): (Session<S>, Result<Outcome, GenerationError>)
  {
    var end := StateAt(m, s, drawn, |drawn|);
    match Reason(req, first, limit, drawn)
    case Some(reason) => (end, Ok(Outcome(Shown(req.config, drawn), reason)))
    case None =>
      match Draw(m, req, s, drawn, |drawn|).token
      case None => (end, Err(SamplingFailed))
      case Some(token) => (Poisoned(m, end, token), Err(ModelFailed))
  }

  // --- prefixes -------------------------------------------------------------------------------

  lemma {:induction false} StatePrefix<S, V>(m: Model<S, V>, s: Session<S>, a: seq<nat>, b: seq<nat>, n: nat)
    requires n <= |a| && n <= |b| && a[..n] == b[..n]
    ensures StateAt(m, s, a, n) == StateAt(m, s, b, n)
    decreases n
  {
    if n > 0 {
      ShorterPrefix(a, b, n);
      StatePrefix(m, s, a, b, n - 1);
    }
  }

  lemma ShorterPrefix(a: seq<nat>, b: seq<nat>, n: nat)
    requires 0 < n <= |a| && n <= |b| && a[..n] == b[..n]
    ensures a[..n - 1] == b[..n - 1] && a[n - 1] == b[n - 1]
  {
    assert a[..n][..n - 1] == a[..n - 1] && b[..n][..n - 1] == b[..n - 1];
    assert a[..n][n - 1] == b[..n][n - 1];
  }

  lemma {:induction false} DrawPrefix<S, V, R, E>(m: Model<S, V>, req: Request<R, E>, s: Session<S>, a: seq<nat>,
                                                  b: seq<nat>, n: nat)
    requires n <= |a| && n <= |b| && a[..n] == b[..n]
    ensures RngAt(m, req, s, a, n) == RngAt(m, req, s, b, n) && Draw(m, req, s, a, n) == Draw(m, req, s, b, n)
    decreases n
  {
    StatePrefix(m, s, a, b, n);
    if n > 0 {
      ShorterPrefix(a, b, n);
      DrawPrefix(m, req, s, a, b, n - 1);
    }
  }

  lemma {:induction false} HeardPrefix<E>(listener: Listener<E>, a: seq<nat>, b: seq<nat>, n: nat)
    requires n <= |a| && n <= |b| && a[..n] == b[..n]
    ensures Heard(listener, a, n) == Heard(listener, b, n)
    decreases n
  {
    if n > 0 {
      ShorterPrefix(a, b, n);
      HeardPrefix(listener, a, b, n - 1);
    }
  }

  lemma DrewPrefix<S, V, R, E>(m: Model<S, V>, req: Request<R, E>, s: Session<S>, first: nat, limit: nat,
                               a: seq<nat>, b: seq<nat>, i: nat)
    requires i < |a| && i < |b| && a[..i + 1] == b[..i + 1]
    ensures Drew(m, req, s, first, limit, a, i) <==> Drew(m, req, s, first, limit, b, i)
  {
    ShorterPrefix(a, b, i + 1);
    StatePrefix(m, s, a, b, i);
    DrawPrefix(m, req, s, a, b, i);
  }

  // --- the decode loop ---------------------------------------------------------------------------

  /** The loop is about to poll for draw `|drawn|`. */
  ghost predicate Open<S, V, R, E>(m: Model<S, V>, req: Request<R, E>, s: Session<S>, first: nat, limit: nat,
                                   drawn: seq<nat>)
  {
    DrawnInOrder(m, req, s, first, limit, drawn) && !BrokenOff(req, drawn) && !EndsInStop(req.config, drawn) &&
    |drawn| <= limit
  }

  /** The decode loop, standing at `drawn`. */
  ghost function DecodeAt<S, V, R, E>(m: Model<S, V>, req: Request<R, E>, s: Session<S>, first: nat, limit: nat,
                                      drawn: seq<nat>): (Session<S>, Result<Outcome, GenerationError>)
  {
    Decode(m, req, StateAt(m, s, drawn, |drawn|), RngAt(m, req, s, drawn, |drawn|),
           Heard(req.listener, drawn, |drawn|), |drawn|, limit, drawn, first + |drawn|)
  }

  /** One more token. */
  lemma DrawOne<S, V, R, E>(m: Model<S, V>, req: Request<R, E>, s: Session<S>, first: nat, limit: nat, drawn: seq<nat>)
    returns (more: seq<nat>)
    requires Open(m, req, s, first, limit, drawn) && Reason(req, first, limit, drawn) == None
    requires Draw(m, req, s, drawn, |drawn|).token.Some?
    requires Takes(m, StateAt(m, s, drawn, |drawn|), Draw(m, req, s, drawn, |drawn|).token.value)
    ensures more == drawn + [Draw(m, req, s, drawn, |drawn|).token.value]
    ensures DrawnInOrder(m, req, s, first, limit, more)
    ensures StateAt(m, s, more, |more|) == Grown(m, StateAt(m, s, drawn, |drawn|), more[|drawn|])
    ensures RngAt(m, req, s, more, |more|) == Draw(m, req, s, drawn, |drawn|).rng
    ensures Heard(req.listener, more, |drawn|) == Heard(req.listener, drawn, |drawn|)
  {
    more := drawn + [Draw(m, req, s, drawn, |drawn|).token.value];
    assert more[..|drawn|] == drawn && drawn[..|drawn|] == drawn;
    StatePrefix(m, s, drawn, more, |drawn|);
    DrawPrefix(m, req, s, drawn, more, |drawn|);
    HeardPrefix(req.listener, drawn, more, |drawn|);
    forall i: nat | i < |more| ensures Drew(m, req, s, first, limit, more, i) {
      if i < |drawn| {
        assert drawn[..i + 1] == more[..i + 1];
        DrewPrefix(m, req, s, first, limit, drawn, more, i);
      }
    }
  }

  /** The loop ends where the account says, with what the account reports. */
  lemma {:induction false} DecodeRuns<S, V, R, E>(m: Model<S, V>, req: Request<R, E>, s: Session<S>, first: nat,
                                                  limit: nat, drawn: seq<nat>) returns (all: seq<nat>)
    requires Open(m, req, s, first, limit, drawn)
    ensures Ended(m, req, s, first, limit, all)
    ensures DecodeAt(m, req, s, first, limit, drawn) == Report(m, req, s, first, limit, all)
    decreases limit - |drawn|
  {
    all := drawn;
    var d := Draw(m, req, s, drawn, |drawn|);
    if Reason(req, first, limit, drawn).Some? || d.token == None ||
       !Takes(m, StateAt(m, s, drawn, |drawn|), d.token.value)
    {
      EndsHere(m, req, s, first, limit, drawn);
    } else {
      all := DrawOne(m, req, s, first, limit, drawn);
      Iteration(m, req, StateAt(m, s, drawn, |drawn|), RngAt(m, req, s, drawn, |drawn|), drawn, limit, first + |drawn|,
                d.token.value, all, RngAt(m, req, s, all, |all|));
      if BrokenOff(req, all) || EndsInStop(req.config, all) {
        StopsAt(m, req, s, first, limit, all);
      } else {
        all := DecodeRuns(m, req, s, first, limit, all);
      }
    }
  }

  lemma StopsAt<S, V, R, E>(m: Model<S, V>, req: Request<R, E>, s: Session<S>, first: nat, limit: nat, all: seq<nat>)
    requires BrokenOff(req, all) || EndsInStop(req.config, all)
    ensures Reason(req, first, limit, all).Some?
    ensures Report(m, req, s, first, limit, all) ==
            (StateAt(m, s, all, |all|),
             Ok(Outcome(Shown(req.config, all),
                        if BrokenOff(req, all) then Callback else StopToken(all[|all| - 1]))))
  {}

  lemma EndsHere<S, V, R, E>(m: Model<S, V>, req: Request<R, E>, s: Session<S>, first: nat, limit: nat, drawn: seq<nat>)
    requires Open(m, req, s, first, limit, drawn)
    requires Reason(req, first, limit, drawn).Some? || Draw(m, req, s, drawn, |drawn|).token == None ||
             !Takes(m, StateAt(m, s, drawn, |drawn|), Draw(m, req, s, drawn, |drawn|).token.value)
    ensures DecodeAt(m, req, s, first, limit, drawn) == Report(m, req, s, first, limit, drawn)
  {}

  /** The iteration that draws the last token of `more`. */
  lemma Iteration<S, V, R, E>(m: Model<S, V>, req: Request<R, E>, at: Session<S>, rng: R, drawn: seq<nat>, limit: nat,
                              poll: nat, token: nat, more: seq<nat>, rng': R)
    requires |drawn| < limit && !req.cancelled(poll) && Takes(m, at, token)
    requires req.sampler.sample(rng, at.logits, at.history) == Sampled(rng', Some(token))
    requires more == drawn + [token] && Heard(req.listener, more, |drawn|) == Heard(req.listener, drawn, |drawn|)
    ensures Decode(m, req, at, rng, Heard(req.listener, drawn, |drawn|), |drawn|, limit, drawn, poll) ==
            if BrokenOff(req, more) then (Grown(m, at, token), Ok(Outcome(Shown(req.config, more), Callback)))
            else if EndsInStop(req.config, more)
            then (Grown(m, at, token), Ok(Outcome(Shown(req.config, more), StopToken(token))))
            else Decode(m, req, Grown(m, at, token), rng', Heard(req.listener, more, |more|), |more|, limit, more,
                        poll + 1)
  {
    DecodeTakes(m, req, at, rng, Heard(req.listener, drawn, |drawn|), |drawn|, limit, drawn, poll, token);
    LastAnswer(req, drawn, token, more);
  }

  /** One iteration whose token the model takes. */
  lemma DecodeTakes<S, V, R, E>(m: Model<S, V>, req: Request<R, E>, s: Session<S>, rng: R, heard: E, index: nat,
                                limit: nat, generated: seq<nat>, poll: nat, token: nat)
    requires index < limit && !req.cancelled(poll)
    requires req.sampler.sample(rng, s.logits, s.history).token == Some(token) && Takes(m, s, token)
    ensures var rng' := req.sampler.sample(rng, s.logits, s.history).rng;
            var stop := token in req.config.stopTokens;
            var (heard', broke) := req.listener.emit(heard, token, index);
            Decode(m, req, s, rng, heard, index, limit, generated, poll) ==
            if stop && !req.config.emitStop then (Grown(m, s, token), Ok(Outcome(generated, StopToken(token))))
            else if broke then (Grown(m, s, token), Ok(Outcome(generated + [token], Callback)))
            else if stop then (Grown(m, s, token), Ok(Outcome(generated + [token], StopToken(token))))
            else Decode(m, req, Grown(m, s, token), rng', heard', index + 1, limit, generated + [token], poll + 1)
  {}

  /** What the last token and the answer to it decide. */
  lemma LastAnswer<R, E>(req: Request<R, E>, drawn: seq<nat>, token: nat, more: seq<nat>)
    requires more == drawn + [token] && Heard(req.listener, more, |drawn|) == Heard(req.listener, drawn, |drawn|)
    ensures EndsInStop(req.config, more) <==> token in req.config.stopTokens
    ensures Shown(req.config, more) == if token in req.config.stopTokens && !req.config.emitStop then drawn else more
    ensures BrokenOff(req, more) <==>
              (token in req.config.stopTokens ==> req.config.emitStop) &&
              req.listener.emit(Heard(req.listener, drawn, |drawn|), token, |drawn|).1
    ensures Heard(req.listener, more, |more|) ==
            req.listener.emit(Heard(req.listener, drawn, |drawn|), token, |drawn|).0
  {
    assert more[..|drawn|] == drawn;
  }

  /** Only one sequence of tokens has the account of a call. */
  lemma {:induction false} SameSoFar<S, V, R, E>(m: Model<S, V>, req: Request<R, E>, s: Session<S>, first: nat,
                                                 limit: nat, a: seq<nat>, b: seq<nat>, n: nat)
    requires Ended(m, req, s, first, limit, a) && Ended(m, req, s, first, limit, b) && n <= |a| && n <= |b|
    ensures a[..n] == b[..n]
    decreases n
  {
    if n > 0 {
      SameSoFar(m, req, s, first, limit, a, b, n - 1);
      DrawPrefix(m, req, s, a, b, n - 1);
      assert Drew(m, req, s, first, limit, a, n - 1) && Drew(m, req, s, first, limit, b, n - 1);
      assert a[..n] == a[..n - 1] + [a[n - 1]] && b[..n] == b[..n - 1] + [b[n - 1]];
    }
  }

  lemma NotShorter<S, V, R, E>(m: Model<S, V>, req: Request<R, E>, s: Session<S>, first: nat, limit: nat, a: seq<nat>,
                               b: seq<nat>)
    requires Ended(m, req, s, first, limit, a) && Ended(m, req, s, first, limit, b)
    ensures |b| <= |a|
  {
    if |a| < |b| {
      var n := |a|;
      SameSoFar(m, req, s, first, limit, a, b, n);
      assert a[..n] == a;
      assert Drew(m, req, s, first, limit, b, n);
      DrawPrefix(m, req, s, a, b, n);
      StatePrefix(m, s, a, b, n);
    }
  }

  lemma OneAccount<S, V, R, E>(m: Model<S, V>, req: Request<R, E>, s: Session<S>, first: nat, limit: nat, a: seq<nat>,
                               b: seq<nat>)
    requires Ended(m, req, s, first, limit, a) && Ended(m, req, s, first, limit, b)
    ensures a == b
  {
    NotShorter(m, req, s, first, limit, a, b);
    NotShorter(m, req, s, first, limit, b, a);
    SameSoFar(m, req, s, first, limit, a, b, |a|);
    assert a[..|a|] == a && b[..|b|] == b;
  }

  /** The decode loop is exactly its account. */
  lemma DecodeExact<S, V, R, E>(m: Model<S, V>, req: Request<R, E>, s: Session<S>, first: nat, limit: nat)
    returns (drawn: seq<nat>)
    ensures Decode(m, req, s, req.sampler.seeded, req.listener.start, 0, limit, [], first) ==
            Report(m, req, s, first, limit, drawn)
    ensures forall tokens :: Ended(m, req, s, first, limit, tokens) <==> tokens == drawn
  {
    drawn := DecodeRuns(m, req, s, first, limit, []);
    forall tokens | Ended(m, req, s, first, limit, tokens) ensures tokens == drawn {
      OneAccount(m, req, s, first, limit, tokens, drawn);
    }
  }

  // --- in plain words ------------------------------------------------------------------------------

  ghost predicate LetGoOn<E>(listener: Listener<E>, tokens: seq<nat>, n: nat)
    requires n <= |tokens|
  {
    forall i: nat | i < n :: !AskedToStop(listener, tokens, i)
  }

  /** Before the last token nothing asked for an end: no stop token, no answer of the listener, and
      no poll up to the draw of the last token. The last token, the poll after it and the limit decide
      the reason. */
  lemma ReasonsMean<S, V, R, E>(m: Model<S, V>, req: Request<R, E>, s: Session<S>, first: nat, limit: nat,
                                drawn: seq<nat>, outcome: Outcome)
    requires Ended(m, req, s, first, limit, drawn) && Report(m, req, s, first, limit, drawn).1 == Ok(outcome)
    ensures |drawn| <= limit && outcome.tokens == Shown(req.config, drawn)
    ensures forall i | 0 <= i < |drawn| - 1 :: drawn[i] !in req.config.stopTokens
    ensures forall poll: nat | first <= poll < first + |drawn| :: !req.cancelled(poll)
    ensures drawn != [] ==> LetGoOn(req.listener, drawn, |drawn| - 1)
    ensures outcome.stop == Callback <==>
              outcome.tokens != [] && outcome.tokens == drawn && AskedToStop(req.listener, drawn, |drawn| - 1)
    ensures outcome.stop.StopToken? <==> outcome.stop != Callback && EndsInStop(req.config, drawn)
    ensures outcome.stop.StopToken? ==> outcome.stop.token == drawn[|drawn| - 1]
    ensures outcome.stop == Cancelled <==>
              outcome.stop != Callback && !EndsInStop(req.config, drawn) && |drawn| < limit &&
              req.cancelled(first + |drawn|)
    ensures outcome.stop in {MaxTokens, ContextLength} ==>
              |drawn| == limit && !EndsInStop(req.config, drawn) && LetGoOn(req.listener, drawn, |drawn|)
    ensures outcome.stop == ContextLength ==> limit < req.config.maxNewTokens
    ensures outcome.stop == MaxTokens ==> limit >= req.config.maxNewTokens
  {
    QuietBefore(m, req, s, first, limit, drawn);
    LastDecides(req, first, limit, drawn, outcome);
  }

  lemma QuietBefore<S, V, R, E>(m: Model<S, V>, req: Request<R, E>, s: Session<S>, first: nat, limit: nat,
                                drawn: seq<nat>)
    requires DrawnInOrder(m, req, s, first, limit, drawn)
    ensures |drawn| <= limit
    ensures forall i | 0 <= i < |drawn| - 1 :: drawn[i] !in req.config.stopTokens
    ensures forall poll: nat | first <= poll < first + |drawn| :: !req.cancelled(poll)
    ensures drawn != [] ==> LetGoOn(req.listener, drawn, |drawn| - 1)
  {
    forall poll: nat | first <= poll < first + |drawn| ensures !req.cancelled(poll) {
      assert Drew(m, req, s, first, limit, drawn, poll - first);
    }
    forall i: nat | i < |drawn| - 1
      ensures drawn[i] !in req.config.stopTokens && !AskedToStop(req.listener, drawn, i)
    {
      assert Drew(m, req, s, first, limit, drawn, i + 1);
      PrefixGoesOn(req, first, limit, drawn, i + 1);
    }
    if drawn != [] {
      assert Drew(m, req, s, first, limit, drawn, |drawn| - 1);
    }
  }

  lemma LastDecides<R, E>(req: Request<R, E>, first: nat, limit: nat, drawn: seq<nat>, outcome: Outcome)
    requires Reason(req, first, limit, drawn) == Some(outcome.stop) && outcome.tokens == Shown(req.config, drawn)
    requires |drawn| <= limit && (drawn != [] ==> LetGoOn(req.listener, drawn, |drawn| - 1))
    ensures outcome.stop == Callback <==>
              outcome.tokens != [] && outcome.tokens == drawn && AskedToStop(req.listener, drawn, |drawn| - 1)
    ensures outcome.stop.StopToken? <==> outcome.stop != Callback && EndsInStop(req.config, drawn)
    ensures outcome.stop.StopToken? ==> outcome.stop.token == drawn[|drawn| - 1]
    ensures outcome.stop == Cancelled <==>
              outcome.stop != Callback && !EndsInStop(req.config, drawn) && |drawn| < limit &&
              req.cancelled(first + |drawn|)
    ensures outcome.stop in {MaxTokens, ContextLength} ==>
              |drawn| == limit && !EndsInStop(req.config, drawn) && LetGoOn(req.listener, drawn, |drawn|)
    ensures outcome.stop == ContextLength ==> limit < req.config.maxNewTokens
    ensures outcome.stop == MaxTokens ==> limit >= req.config.maxNewTokens
  {}

  lemma PrefixGoesOn<R, E>(req: Request<R, E>, first: nat, limit: nat, drawn: seq<nat>, n: nat)
    requires 0 < n <= |drawn| && Reason(req, first, limit, drawn[..n]) == None
    ensures drawn[n - 1] !in req.config.stopTokens && !AskedToStop(req.listener, drawn, n - 1)
  {
    assert drawn[..n][n - 1] == drawn[n - 1] && drawn[..n][..n - 1] == drawn[..n - 1];
    HeardPrefix(req.listener, drawn[..n], drawn, n - 1);
  }

  // --- a whole call ------------------------------------------------------------------------------------

  /** What a call asks of its caller. */
  ghost predicate Permitted<S, V, R, E>(m: Model<S, V>, req: Request<R, E>, s: Session<S>) {
    0 < m.vocabulary && req.config.valid && s.healthy &&
    (forall i | 0 <= i < |req.prompt| :: req.prompt[i] < m.vocabulary) &&
    m.position(s.model) + |req.prompt| <= m.context && (req.prompt != [] || s.hasLogits)
  }

  /** The first `n` tokens of the prompt were taken, each after a poll that was answered no. */
  ghost predicate PromptTaken<S, V>(m: Model<S, V>, s: Session<S>, prompt: seq<nat>, cancelled: nat -> bool, n: nat)
    requires n <= |prompt|
  {
    forall i: nat | i < n :: TakenAt(m, s, prompt, cancelled, i)
  }

  ghost predicate TakenAt<S, V>(m: Model<S, V>, s: Session<S>, prompt: seq<nat>, cancelled: nat -> bool, i: nat)
    requires i < |prompt|
  {
    !cancelled(1 + i) && Takes(m, StateAt(m, s, prompt, i), prompt[i])
  }

  /** Evaluating the prompt gets no further than token `n`. */
  ghost predicate PromptEnded<S, V>(m: Model<S, V>, s: Session<S>, prompt: seq<nat>, cancelled: nat -> bool, n: nat) {
    n <= |prompt| && PromptTaken(m, s, prompt, cancelled, n) &&
    (n < |prompt| ==> !TakenAt(m, s, prompt, cancelled, n))
  }

  ghost function PromptReport<S, V>(m: Model<S, V>, s: Session<S>, prompt: seq<nat>, cancelled: nat -> bool, n: nat)
    : (Session<S>, PrefillEnd)
    requires n <= |prompt|
  {
    var end := StateAt(m, s, prompt, n);
    if n == |prompt| then (end, Prefilled)
    else if cancelled(1 + n) then (end, PrefillCancelled)
    else (Poisoned(m, end, prompt[n]), PrefillFailed)
  }

  lemma {:induction false} PrefillRuns<S, V>(m: Model<S, V>, s: Session<S>, prompt: seq<nat>, cancelled: nat -> bool,
                                             n: nat) returns (all: nat)
    requires n <= |prompt| && PromptTaken(m, s, prompt, cancelled, n)
    ensures PromptEnded(m, s, prompt, cancelled, all)
    ensures Prefill(m, StateAt(m, s, prompt, n), prompt[n..], cancelled, 1 + n) ==
            PromptReport(m, s, prompt, cancelled, all)
    decreases |prompt| - n
  {
    all := n;
    if n < |prompt| && !cancelled(1 + n) && Takes(m, StateAt(m, s, prompt, n), prompt[n]) {
      PromptMore(m, s, prompt, cancelled, n);
      PrefillStep(m, StateAt(m, s, prompt, n), prompt, cancelled, n);
      all := PrefillRuns(m, s, prompt, cancelled, n + 1);
    } else {
      PrefillStops(m, s, prompt, cancelled, n);
    }
  }

  lemma PromptMore<S, V>(m: Model<S, V>, s: Session<S>, prompt: seq<nat>, cancelled: nat -> bool, n: nat)
    requires n < |prompt| && PromptTaken(m, s, prompt, cancelled, n)
    requires !cancelled(1 + n) && Takes(m, StateAt(m, s, prompt, n), prompt[n])
    ensures PromptTaken(m, s, prompt, cancelled, n + 1)
  {}

  lemma PrefillStep<S, V>(m: Model<S, V>, at: Session<S>, prompt: seq<nat>, cancelled: nat -> bool, n: nat)
    requires n < |prompt| && !cancelled(1 + n) && Takes(m, at, prompt[n])
    ensures Prefill(m, at, prompt[n..], cancelled, 1 + n) ==
            Prefill(m, Grown(m, at, prompt[n]), prompt[n + 1..], cancelled, 2 + n)
  {
    assert prompt[n..][0] == prompt[n] && prompt[n..][1..] == prompt[n + 1..];
  }

  lemma PrefillStops<S, V>(m: Model<S, V>, s: Session<S>, prompt: seq<nat>, cancelled: nat -> bool, n: nat)
    requires n <= |prompt|
    requires n < |prompt| ==> cancelled(1 + n) || !Takes(m, StateAt(m, s, prompt, n), prompt[n])
    ensures Prefill(m, StateAt(m, s, prompt, n), prompt[n..], cancelled, 1 + n) ==
            PromptReport(m, s, prompt, cancelled, n)
  {}

  lemma OnePrompt<S, V>(m: Model<S, V>, s: Session<S>, prompt: seq<nat>, cancelled: nat -> bool, a: nat, b: nat)
    requires PromptEnded(m, s, prompt, cancelled, a) && PromptEnded(m, s, prompt, cancelled, b)
    ensures a == b
  {}

  /** How many tokens may be drawn. */
  ghost function Room<S, V, R, E>(m: Model<S, V>, req: Request<R, E>, s: Session<S>): nat
    requires Permitted(m, req, s)
  {
    var left := m.context - (m.position(s.model) + |req.prompt|);
    if left < req.config.maxNewTokens then left else req.config.maxNewTokens
  }

  /** The account of a call that its caller was permitted to make: `evaluated` tokens of the prompt,
      then `drawn`, lead to `end` and to `result`. */
  ghost predicate Account<S, V, R, E>(m: Model<S, V>, req: Request<R, E>, s: Session<S>, evaluated: nat,
                                      drawn: seq<nat>, end: Session<S>, result: Result<Outcome, GenerationError>)
    requires Permitted(m, req, s)
  {
    if req.cancelled(0) then
      evaluated == 0 && drawn == [] && end == s && result == Ok(Outcome([], Cancelled))
    else
      PromptEnded(m, s, req.prompt, req.cancelled, evaluated) &&
      if evaluated < |req.prompt| then
        drawn == [] &&
        if req.cancelled(1 + evaluated)
        then end == StateAt(m, s, req.prompt, evaluated) && result == Ok(Outcome([], Cancelled))
        else end == Poisoned(m, StateAt(m, s, req.prompt, evaluated), req.prompt[evaluated]) &&
             result == Err(ModelFailed)
      else
        var filled, first, limit := StateAt(m, s, req.prompt, |req.prompt|), 1 + |req.prompt|, Room(m, req, s);
        Ended(m, req, filled, first, limit, drawn) && (end, result) == Report(m, req, filled, first, limit, drawn)
  }

  lemma GenerateRuns<S, V, R, E>(m: Model<S, V>, req: Request<R, E>, s: Session<S>)
    returns (evaluated: nat, drawn: seq<nat>)
    requires Permitted(m, req, s)
    ensures Account(m, req, s, evaluated, drawn, Generate(m, req, s).0, Generate(m, req, s).1)
  {
    evaluated, drawn := 0, [];
    RefusalMeans(m, req, s);
    if !req.cancelled(0) {
      evaluated := PrefillAll(m, s, req.prompt, req.cancelled);
      if evaluated == |req.prompt| {
        drawn := DecodeExact(m, req, StateAt(m, s, req.prompt, evaluated), 1 + evaluated, Room(m, req, s));
      }
    }
  }

  lemma PrefillAll<S, V>(m: Model<S, V>, s: Session<S>, prompt: seq<nat>, cancelled: nat -> bool)
    returns (evaluated: nat)
    ensures PromptEnded(m, s, prompt, cancelled, evaluated)
    ensures Prefill(m, s, prompt, cancelled, 1) == PromptReport(m, s, prompt, cancelled, evaluated)
  {
    assert prompt[0..] == prompt;
    evaluated := PrefillRuns(m, s, prompt, cancelled, 0);
  }

  /** No call has two accounts. */
  lemma AccountsAgree<S, V, R, E>(
    m: Model<S, V>, req: Request<R, E>, s: Session<S>, e: nat, d: seq<nat>, end: Session<S>,
    result: Result<Outcome, GenerationError>, e': nat, d': seq<nat>, end': Session<S>,
    result': Result<Outcome, GenerationError>)
    requires Permitted(m, req, s)
    requires Account(m, req, s, e, d, end, result) && Account(m, req, s, e', d', end', result')
    ensures e == e' && d == d' && end == end' && result == result'
  {
    if !req.cancelled(0) {
      OnePrompt(m, s, req.prompt, req.cancelled, e, e');
      if e == |req.prompt| {
        OneAccount(m, req, StateAt(m, s, req.prompt, e), 1 + e, Room(m, req, s), d, d');
      }
    }
  }

  /** A call returns what its account says, and has only one. */
  lemma GenerateExact<S, V, R, E>(m: Model<S, V>, req: Request<R, E>, s: Session<S>, end: Session<S>,
                                  result: Result<Outcome, GenerationError>)
    requires Permitted(m, req, s)
    ensures Generate(m, req, s) == (end, result) <==> exists e, d :: Account(m, req, s, e, d, end, result)
  {
    var evaluated, drawn := GenerateRuns(m, req, s);
    forall e, d | Account(m, req, s, e, d, end, result) ensures Generate(m, req, s) == (end, result) {
      AccountsAgree(m, req, s, e, d, end, result, evaluated, drawn, Generate(m, req, s).0, Generate(m, req, s).1);
    }
  }

  /** A call that was not permitted changes nothing and names the first thing amiss. */
  lemma RefusalMeans<S, V, R, E>(m: Model<S, V>, req: Request<R, E>, s: Session<S>)
    ensures RequestError(m, req, s) == None <==> Permitted(m, req, s)
    ensures !Permitted(m, req, s) ==>
              Generate(m, req, s).0 == s &&
              match Generate(m, req, s).1
              case Ok(_) => false
              case Err(InvalidConfig) => m.vocabulary == 0 || !req.config.valid
              case Err(SessionPoisoned) => !s.healthy
              case Err(TokenOutOfRange) => exists i | 0 <= i < |req.prompt| :: req.prompt[i] >= m.vocabulary
              case Err(PromptExceedsContext) => m.position(s.model) + |req.prompt| > m.context
              case Err(EmptyPrompt) => req.prompt == [] && !s.hasLogits
              case Err(ModelFailed) => false
              case Err(SamplingFailed) => false
  {}

  lemma {:induction false} StateHistory<S, V>(m: Model<S, V>, s: Session<S>, tokens: seq<nat>, n: nat)
    requires n <= |tokens|
    ensures StateAt(m, s, tokens, n).history == s.history + tokens[..n]
    ensures StateAt(m, s, tokens, n).healthy == s.healthy && (n > 0 ==> StateAt(m, s, tokens, n).hasLogits)
    decreases n
  {
    if n > 0 {
      StateHistory(m, s, tokens, n - 1);
      assert tokens[..n] == tokens[..n - 1] + [tokens[n - 1]];
    }
  }

  /** The history grows by exactly the tokens the model took, prompt first; only a refusal by the
      model poisons the session. */
  lemma HistoryGrows<S, V, R, E>(m: Model<S, V>, req: Request<R, E>, s: Session<S>)
    returns (evaluated: nat, drawn: seq<nat>)
    requires Permitted(m, req, s)
    ensures evaluated <= |req.prompt| && (drawn != [] ==> evaluated == |req.prompt|)
    ensures var (end, result) := Generate(m, req, s);
            end.history == s.history + req.prompt[..evaluated] + drawn &&
            (end.healthy <==> result != Err(ModelFailed)) && (result == Err(ModelFailed) ==> !end.hasLogits) &&
            (result.Ok? ==> result.value.tokens == Shown(req.config, drawn))
  {
    evaluated, drawn := GenerateRuns(m, req, s);
    AccountHistory(m, req, s, evaluated, drawn);
  }

  lemma AccountHistory<S, V, R, E>(m: Model<S, V>, req: Request<R, E>, s: Session<S>, evaluated: nat, drawn: seq<nat>)
    requires Permitted(m, req, s)
    requires Account(m, req, s, evaluated, drawn, Generate(m, req, s).0, Generate(m, req, s).1)
    ensures evaluated <= |req.prompt| && (drawn != [] ==> evaluated == |req.prompt|)
    ensures var (end, result) := Generate(m, req, s);
            end.history == s.history + req.prompt[..evaluated] + drawn &&
            (end.healthy <==> result != Err(ModelFailed)) && (result == Err(ModelFailed) ==> !end.hasLogits) &&
            (result.Ok? ==> result.value.tokens == Shown(req.config, drawn))
  {
    if !req.cancelled(0) {
      StateHistory(m, s, req.prompt, evaluated);
      if evaluated == |req.prompt| {
        StateHistory(m, StateAt(m, s, req.prompt, evaluated), drawn, |drawn|);
        assert drawn[..|drawn|] == drawn;
      }
    }
  }

  /** A turn whose prompt continues the history evaluates only what is new: what was there stays, and
      the model takes a part of the rest of the prompt, then the drawn tokens. */
  lemma TurnContinues<S, V, R, E>(m: Model<S, V>, req: Request<R, E>, s: Session<S>)
    returns (evaluated: nat, drawn: seq<nat>)
    requires s.history <= req.prompt && Permitted(m, req.(prompt := req.prompt[|s.history|..]), s)
    ensures |s.history| + evaluated <= |req.prompt|
    ensures var rest := req.(prompt := req.prompt[|s.history|..]);
            var (end, result) := PrefixReuse.Turn(m, req, s);
            Account(m, rest, s, evaluated, drawn, end, result) &&
            end.history == req.prompt[..|s.history| + evaluated] + drawn
  {
    var rest := req.(prompt := req.prompt[|s.history|..]);
    evaluated, drawn := GenerateRuns(m, rest, s);
    AccountHistory(m, rest, s, evaluated, drawn);
    assert s.history + rest.prompt[..evaluated] == req.prompt[..|s.history| + evaluated];
  }
}
