/** Generation and chat turns on the session object itself. Allocations are taken to succeed here;
    `ChatSession.EvaluateToken` says what a token does when they fail. */
module ChatTurns {
  import opened Common
  import opened KvSnapshot
  import opened KvSnapshotIo
  import opened Evaluator
  import opened SessionSnapshot
  import opened ChatSessions
  import opened Generation
  import PrefixReuse
  import SessionInvariant

  function Plenty(): nat -> bool {
    (layer: nat) => true
  }

  /** One token of the decode loop: it ends the loop, or the loop goes on from a later state. */
  method DecodeOne<R, E>(
    k: Kernels, session: ChatSession, req: Request<R, E>, rng: R, heard: E, index: nat, limit: nat, generated: seq<nat>)
    returns (done: Option<Result<Outcome, GenerationError>>, rng': R, heard': E, generated': seq<nat>)
    requires session.Valid(k) && index < limit
    modifies session, session.scalar, session.scalar.cache
    ensures session.Valid(k)
    ensures Decoding(k, req, old(session.State()), rng, heard, index, limit, generated) ==
            if done.Some? then (session.State(), done.value)
            else Decoding(k, req, session.State(), rng', heard', index + 1, limit, generated')
  {
    done, rng', heard', generated' := None, rng, heard, generated;
    if req.cancelled(1 + |req.prompt| + index) {
      done := Some(Ok(Outcome(generated, Cancelled)));
      return;
    }
    var drawn := req.sampler.sample(rng, session.logits, session.history);
    if drawn.token == None {
      done := Some(Err(SamplingFailed));
      return;
    }
    rng' := drawn.rng;
    var token := drawn.token.value;
    var ok := session.EvaluateToken(k, token, Plenty());
    if !ok {
      done := Some(Err(ModelFailed));
      return;
    }
    var stop := token in req.config.stopTokens;
    if !stop || req.config.emitStop {
      generated' := generated + [token];
      var (next, broke) := req.listener.emit(heard, token, index);
      heard' := next;
      if broke {
        done := Some(Ok(Outcome(generated', Callback)));
        return;
      }
    }
    if stop {
      done := Some(Ok(Outcome(generated', StopToken(token))));
    }
  }

  ghost function Decoding<R, E>(
    k: Kernels, req: Request<R, E>, s: Session<View>, rng: R, heard: E, index: nat, limit: nat, generated: seq<nat>)
    : (Session<View>, Result<Outcome, GenerationError>)
  {
    Generation.Decode(Hy3Model(k), req, s, rng, heard, index, limit, generated, 1 + |req.prompt| + index)
  }

  /** The decode loop on the object. */
  method DecodeStream<R, E>(k: Kernels, session: ChatSession, req: Request<R, E>, limit: nat)
    returns (r: Result<Outcome, GenerationError>)
    requires session.Valid(k)
    modifies session, session.scalar, session.scalar.cache
    ensures session.Valid(k)
    ensures (session.State(), r) ==
            Decoding(k, req, old(session.State()), req.sampler.seeded, req.listener.start, 0, limit, [])
  {
    var rng, heard, generated := req.sampler.seeded, req.listener.start, [];
    ghost var result := Decoding(k, req, session.State(), rng, heard, 0, limit, generated);
    for index := 0 to limit
      invariant session.Valid(k)
      invariant Decoding(k, req, session.State(), rng, heard, index, limit, generated) == result
    {
      var done;
      done, rng, heard, generated := DecodeOne(k, session, req, rng, heard, index, limit, generated);
      if done.Some? {
        return done.value;
      }
    }
    r := Ok(Outcome(generated, if limit < req.config.maxNewTokens then ContextLength else MaxTokens));
  }

  /** The prefill loop on the object. */
  method PrefillTokens<R, E>(k: Kernels, session: ChatSession, req: Request<R, E>) returns (end: PrefillEnd)
    requires session.Valid(k)
    modifies session, session.scalar, session.scalar.cache
    ensures session.Valid(k)
    ensures (session.State(), end) == Prefill(Hy3Model(k), old(session.State()), req.prompt, req.cancelled, 1)
  {
    ghost var m, result := Hy3Model(k), Prefill(Hy3Model(k), session.State(), req.prompt, req.cancelled, 1);
    assert req.prompt[0..] == req.prompt;
    for i := 0 to |req.prompt|
      invariant session.Valid(k)
      invariant Prefill(m, session.State(), req.prompt[i..], req.cancelled, 1 + i) == result
    {
      assert req.prompt[i..][1..] == req.prompt[i + 1..];
      if req.cancelled(1 + i) {
        return PrefillCancelled;
      }
      var ok := session.EvaluateToken(k, req.prompt[i], Plenty());
      if !ok {
        return PrefillFailed;
      }
    }
    end := Prefilled;
  }

  method CheckRequest<R, E>(k: Kernels, session: ChatSession, req: Request<R, E>)
    returns (error: Option<GenerationError>)
    requires session.Valid(k)
    ensures error == RequestError(Hy3Model(k), req, session.State())
  {
    if k.vocabulary == 0 || !req.config.valid {
      return Some(InvalidConfig);
    }
    if !session.healthy {
      return Some(SessionPoisoned);
    }
    for i := 0 to |req.prompt|
      invariant forall j | 0 <= j < i :: req.prompt[j] < k.vocabulary
    {
      if req.prompt[i] >= k.vocabulary {
        return Some(TokenOutOfRange);
      }
    }
    if |req.prompt| > k.shape.capacity - session.scalar.position {
      return Some(PromptExceedsContext);
    }
    error := if req.prompt == [] && !session.hasLogits then Some(EmptyPrompt) else None;
  }

  /** Generation on the object is the generation function on what the loop can see of it. */
  method GenerateStream<R, E>(k: Kernels, session: ChatSession, req: Request<R, E>)
    returns (r: Result<Outcome, GenerationError>)
    requires session.Valid(k)
    modifies session, session.scalar, session.scalar.cache
    ensures session.Valid(k)
    ensures (session.State(), r) == Generate(Hy3Model(k), req, old(session.State()))
  {
    var error := CheckRequest(k, session, req);
    if error.Some? {
      return Err(error.value);
    }
    var left := k.shape.capacity - session.scalar.position - |req.prompt|;
    var limit := if req.config.maxNewTokens < left then req.config.maxNewTokens else left;
    if req.cancelled(0) {
      return Ok(Outcome([], Cancelled));
    }
    var end := PrefillTokens(k, session, req);
    match end {
      case PrefillCancelled => r := Ok(Outcome([], Cancelled));
      case PrefillFailed => r := Err(ModelFailed);
      case Prefilled => r := DecodeStream(k, session, req, limit);
    }
  }

  /** One chat turn on the object. On a session that is the replay of its history it answers as a
      new session would, so prefix reuse is invisible to whoever holds the object. */
  method Turn<R, E>(k: Kernels, session: ChatSession, req: Request<R, E>) returns (r: Result<Outcome, GenerationError>)
    requires session.Valid(k)
    modifies session, session.scalar, session.scalar.cache
    ensures session.Valid(k)
    ensures (session.State(), r) == PrefixReuse.Turn(Hy3Model(k), req, old(session.State()))
    ensures old(PrefixReuse.Replayable(Hy3Model(k), session.State())) ==>
              PrefixReuse.Replayable(Hy3Model(k), session.State())
    ensures old(PrefixReuse.Replayable(Hy3Model(k), session.State())) && PrefixReuse.Uninterrupted(req) &&
            old(session.healthy || !(session.history <= req.prompt)) ==>
              r == PrefixReuse.Turn(Hy3Model(k), req, NewSession(Hy3Model(k))).1
    ensures old(SessionInvariant.WellFormed(Hy3Model(k), session.State())) ==>
              SessionInvariant.WellFormed(Hy3Model(k), session.State())
  {
    ghost var m, before := Hy3Model(k), session.State();
    TurnFacts(k, req, before);
    if !(session.history <= req.prompt) {
      session.Reset(k);
    }
    r := GenerateStream(k, session, req.(prompt := req.prompt[|session.history|..]));
  }

  /** What a turn keeps, for the model of the evaluator. */
  lemma TurnFacts<R, E>(k: Kernels, req: Request<R, E>, s: Session<View>)
    ensures var m := Hy3Model(k);
            var after := PrefixReuse.Turn(m, req, s);
            (SessionInvariant.WellFormed(m, s) ==> SessionInvariant.WellFormed(m, after.0)) &&
            (PrefixReuse.Replayable(m, s) ==> PrefixReuse.Replayable(m, after.0)) &&
            (PrefixReuse.Replayable(m, s) && PrefixReuse.Uninterrupted(req) &&
             (s.healthy || !(s.history <= req.prompt)) ==>
               after.1 == PrefixReuse.Turn(m, req, NewSession(m)).1)
  {
    var m := Hy3Model(k);
    Hy3IsCausal(k);
    if SessionInvariant.WellFormed(m, s) {
      SessionInvariant.TurnWellFormed(m, req, s);
    }
    if PrefixReuse.Replayable(m, s) {
      PrefixReuse.TurnReplayable(m, req, s);
      if PrefixReuse.Uninterrupted(req) {
        PrefixReuse.TurnLikeNew(m, req, s);
      }
    }
  }

  // --- whole lives ---------------------------------------------------------------------------------

  datatype Event<!R, !E> = ResetIt | TurnIt(req: Request<R, E>) | RestoreIt(bytes: seq<byte>, limit: nat)

  /** Whatever happens to a session, turn by turn, reset by reset, and restored from any bytes at
      all (refused ones are ignored), the session in hand is well formed. So, by `SaveAndRestore`,
      if it can be exported it can be restored to the same state. */
  method Live<R, E>(k: Kernels, sha: Sha256, fingerprint: Digest, events: seq<Event<R, E>>)
    returns (session: ChatSession)
    requires k.Valid()
    ensures fresh(session) && fresh(session.scalar) && fresh(session.scalar.cache) && session.Valid(k)
    ensures SessionInvariant.WellFormed(Hy3Model(k), session.State())
  {
    session := new ChatSession(k);
    Hy3IsCausal(k);
    SessionInvariant.NewWellFormed(Hy3Model(k));
    for i := 0 to |events|
      invariant fresh(session) && fresh(session.scalar) && fresh(session.scalar.cache) && session.Valid(k)
      invariant SessionInvariant.WellFormed(Hy3Model(k), session.State())
    {
      match events[i] {
        case ResetIt =>
          SessionInvariant.ResetWellFormed(Hy3Model(k), session.State());
          session.Reset(k);
        case TurnIt(req) =>
          var answer := Turn(k, session, req);
        case RestoreIt(bytes, limit) =>
          var restored, failure := RestoreSession(k, sha, fingerprint, bytes, limit, true);
          if failure == None {
            session := restored;
          }
      }
    }
  }
}
