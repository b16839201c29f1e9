/** Exporting and restoring chat sessions, on top of the scalar session and its paged cache. */
module ChatSessions {
  import opened Common
  import opened KvLayout
  import opened PagedKv
  import opened KvSnapshot
  import opened KvSnapshotIo
  import opened Evaluator
  import opened SessionSnapshot
  import Generation
  import SessionInvariant

  datatype SessionError =
    | ZeroSessionLimit
    | UnhealthySessionSnapshot
    | SessionPositionMismatch
    | SessionLogitLength
    | NonFiniteSessionLogit
    | SessionTooLarge
    | TruncatedSessionSnapshot
    | SessionChecksum
    | SessionFormat
    | SessionVersion
    | SessionModelBinding
    | SessionFlags
    | SessionReservedBytes
    | SessionHistoryLength
    | SessionLogitState
    | SessionTokenOutOfRange
    | SessionTrailingBytes
    | Kv(error: SnapshotError)

  class ChatSession {
    const scalar: Hy3Session
    var history: seq<nat>
    var logits: seq<F32>
    var hasLogits: bool
    var healthy: bool

    ghost predicate Valid(k: Kernels)
      reads this, scalar, scalar.cache
    {
      k.Valid() && scalar.Committed(k)
    }

    /** The session as the generation loop sees it. */
    ghost function State(): Generation.Session<View>
      requires scalar.cache.Valid()
      reads this, scalar, scalar.cache
    {
      Generation.Session(View(scalar.cache.Rows(), scalar.position), history, logits, hasLogits, healthy)
    }

    ghost function Contents(): Saved
      requires scalar.cache.Valid()
      reads this, scalar, scalar.cache
    {
      Saved(history, logits, hasLogits, scalar.cache.Rows())
    }

    constructor (k: Kernels)
      requires k.Valid()
      ensures Valid(k) && fresh(scalar) && fresh(scalar.cache)
      ensures State() == Generation.NewSession(Hy3Model(k))
    {
      scalar := new Hy3Session(k);
      history, logits, hasLogits, healthy := [], Zeros(k.vocabulary, 0), false, true;
    }

    /** One token through the scalar session. What it does depends only on the session as the
        generation loop sees it: scratch buffers, routed experts and page tables do not matter. */
    method EvaluateToken(k: Kernels, token: nat, memory: nat -> bool) returns (ok: bool)
      requires Valid(k)
      modifies this, scalar, scalar.cache
      ensures Valid(k)
      ensures ok ==> (State(), true) == Generation.Evaluate(Hy3Model(k), old(State()), token)
      ensures !ok ==> State() == old(State()).(hasLogits := false, healthy := false)
      ensures (forall l :: memory(l)) ==> (State(), ok) == Generation.Evaluate(Hy3Model(k), old(State()), token)
    {
      var out := scalar.Evaluate(k, token, memory);
      if out == None {
        healthy, hasLogits := false, false;
        return false;
      }
      history, logits, hasLogits, ok := history + [token], out.value, true, true;
    }

    method Reset(k: Kernels)
      requires Valid(k)
      modifies this, scalar, scalar.cache
      ensures Valid(k) && State() == Generation.ResetSession(Hy3Model(k), old(State()))
    {
      scalar.Reset(k);
      history := [];
      logits := Zeros(|logits|, 0);
      hasLogits, healthy := false, true;
    }
  }

  method CheckFinite(logits: seq<F32>) returns (ok: bool)
    ensures ok <==> AllFinite(logits)
  {
    for i := 0 to |logits|
      invariant forall j | 0 <= j < i :: IsFinite(logits[j])
    {
      if !IsFinite(logits[i]) {
        return false;
      }
    }
    ok := true;
  }

  /** Succeeds exactly for a healthy session with matching position and finite logits whose
      snapshot fits the limit. */
  method ExportSession(k: Kernels, session: ChatSession, sha: Sha256, fingerprint: Digest, maximum: nat)
    returns (r: Result<seq<byte>, SessionError>)
    requires session.Valid(k) && maximum <= USIZE_MAX
    ensures LayersSized(k.shape, session.scalar.cache.Rows())
    ensures r.Ok? <==>
              session.healthy && |session.history| == session.scalar.position && |session.logits| == k.vocabulary &&
                       AllFinite(session.logits) && LaneCount(k.shape) <= USIZE_MAX &&
                       SessionBytes(k, session.Contents()) <= maximum
    ensures r.Ok? ==> r.value == EncodeSession(k, sha, fingerprint, session.Contents())
  {
    FlatValidRows(k.shape, session.scalar.cache.Rows());
    EncodeLength(sha, k.shape, fingerprint, session.scalar.cache.Rows());
    EncodeSessionLength(k, sha, fingerprint, session.Contents());
    if maximum == 0 {
      return Err(ZeroSessionLimit);
    }
    if !session.healthy {
      return Err(UnhealthySessionSnapshot);
    }
    if |session.history| != session.scalar.position {
      return Err(SessionPositionMismatch);
    }
    if |session.logits| != k.vocabulary {
      return Err(SessionLogitLength);
    }
    var finite := CheckFinite(session.logits);
    if !finite {
      return Err(NonFiniteSessionLogit);
    }
    var kv := session.scalar.ExportKv(k, sha, fingerprint, maximum);
    if kv.Err? {
      return Err(Kv(kv.error));
    }
    var total := 8 + 4 + 32 + 8 * 3 + 4 + 32 + 4 * |session.history| + 4 * |session.logits| + |kv.value|;
    if total > maximum {
      return Err(SessionTooLarge);
    }
    var output := FrameBytes(fingerprint, Frame(
      [|session.history|, |session.logits|, |kv.value|], session.hasLogits,
      ContentsBytes(session.history, session.logits, kv.value)));
    r := Ok(output + sha(output));
  }

  // --- restore: the cursor ----------------------------------------------------------------------------

  method CheckPrologue(fingerprint: Digest, body: seq<byte>) returns (rest: Result<seq<byte>, SessionError>)
    ensures rest.Ok? <==> Prologue(fingerprint) <= body
    ensures rest.Ok? ==> rest.value == body[|Prologue(fingerprint)|..]
  {
    PrefixConcat(SESSION_MAGIC + Le(1, 4), fingerprint, body);
    PrefixConcat(SESSION_MAGIC, Le(1, 4), body);
    if |body| < 8 {
      return Err(TruncatedSessionSnapshot);
    }
    if body[..8] != SESSION_MAGIC {
      return Err(SessionFormat);
    }
    var cursor := body[8..];
    Pow256Values();
    FieldMatches(1, 4, cursor);
    if |cursor| < 4 {
      return Err(TruncatedSessionSnapshot);
    }
    if FromLe(cursor[..4]) != 1 {
      return Err(SessionVersion);
    }
    cursor := cursor[4..];
    if |cursor| < 32 {
      return Err(TruncatedSessionSnapshot);
    }
    if cursor[..32] != fingerprint {
      return Err(SessionModelBinding);
    }
    rest := Ok(cursor[32..]);
  }

  method ReadFrame(fingerprint: Digest, body: seq<byte>) returns (r: Result<Frame, SessionError>)
    ensures r.Ok? <==> TakeFrame(fingerprint, body).Some?
    ensures r.Ok? ==> TakeFrame(fingerprint, body) == Some(r.value)
  {
    var cursor := CheckPrologue(fingerprint, body);
    if cursor.Err? {
      return Err(cursor.error);
    }
    var lengths := TakeInts(cursor.value, 3, 8);
    if lengths == None {
      return Err(TruncatedSessionSnapshot);
    }
    var after := lengths.value.1;
    if |after| < 1 {
      return Err(TruncatedSessionSnapshot);
    }
    if after[0] > 1 {
      return Err(SessionFlags);
    }
    if |after| < 4 {
      return Err(TruncatedSessionSnapshot);
    }
    if after[1..4] != [0, 0, 0] {
      return Err(SessionReservedBytes);
    }
    r := Ok(Frame(lengths.value.0, after[0] == 1, after[4..]));
  }

  /** The token loop: each token is range-checked as it is read. */
  method ReadTokens(vocabulary: nat, n: nat, bytes: seq<byte>)
    returns (history: seq<nat>, rest: Result<seq<byte>, SessionError>)
    ensures rest.Ok? ==>
              TakeInts(bytes, n, 4) == Some((history, rest.value)) &&
              forall i | 0 <= i < |history| :: history[i] < vocabulary
    ensures rest.Err? && TakeInts(bytes, n, 4).Some? ==>
              exists i | 0 <= i < |TakeInts(bytes, n, 4).value.0| :: TakeInts(bytes, n, 4).value.0[i] >= vocabulary
  {
    history := [];
    var cursor := bytes;
    ghost var all := TakeInts(bytes, n, 4);
    ResumeNone(all);
    for i := 0 to n
      invariant |history| == i && forall j | 0 <= j < i :: history[j] < vocabulary
      invariant all == Resume(history, TakeInts(cursor, n - i, 4))
    {
      if |cursor| < 4 {
        return history, Err(TruncatedSessionSnapshot);
      }
      TakeIntsStep(cursor, n - i, 4, history);
      var token := FromLe(cursor[..4]);
      cursor := cursor[4..];
      if token >= vocabulary {
        assert all.Some? ==> i < |all.value.0| && all.value.0[i] == token;
        return history, Err(SessionTokenOutOfRange);
      }
      history := history + [token];
    }
    rest := Ok(cursor);
    assert history + [] == history;
  }

  method ReadContents(vocabulary: nat, n: nat, bytes: seq<byte>)
    returns (r: Result<(seq<nat>, seq<F32>, seq<byte>), SessionError>)
    ensures r.Ok? <==> TakeContents(vocabulary, n, bytes).Some?
    ensures r.Ok? ==> TakeContents(vocabulary, n, bytes) == Some(r.value)
  {
    var history, after := ReadTokens(vocabulary, n, bytes);
    if after.Err? {
      return Err(after.error);
    }
    var logits := TakeWords(after.value, vocabulary);
    if logits == None {
      return Err(TruncatedSessionSnapshot);
    }
    var finite := CheckFinite(logits.value.0);
    if !finite {
      return Err(NonFiniteSessionLogit);
    }
    r := Ok((history, logits.value.0, logits.value.1));
  }

  /** Builds a new session from a snapshot. With memory to spare it accepts precisely the byte
      strings the format decodes. */
  method RestoreSession(k: Kernels, sha: Sha256, fingerprint: Digest, bytes: seq<byte>, maximum: nat, memory: bool)
    returns (session: ChatSession, failure: Option<SessionError>)
    requires k.Valid()
    ensures fresh(session) && fresh(session.scalar) && fresh(session.scalar.cache) && session.Valid(k)
    ensures failure == None ==>
              DecodeSession(k, sha, fingerprint, bytes, maximum) == Some(session.Contents()) &&
              session.healthy && session.scalar.position == |session.history| &&
              SessionInvariant.WellFormed(Hy3Model(k), session.State())
    ensures memory ==> (failure == None <==> DecodeSession(k, sha, fingerprint, bytes, maximum).Some?)
  {
    session := new ChatSession(k);
    if maximum == 0 {
      return session, Some(ZeroSessionLimit);
    }
    if |bytes| > maximum {
      return session, Some(SessionTooLarge);
    }
    if |bytes| < 32 {
      return session, Some(TruncatedSessionSnapshot);
    }
    var body := bytes[..|bytes| - 32];
    if sha(body) != bytes[|bytes| - 32..] {
      return session, Some(SessionChecksum);
    }
    var frame := ReadFrame(fingerprint, body);
    if frame.Err? {
      return session, Some(frame.error);
    }
    TakeFrameIsCanonical(fingerprint, body);
    failure := RestoreFrame(k, session, sha, fingerprint, frame.value, maximum, memory);
    if failure == None {
      SessionCanonical(k, sha, fingerprint, bytes, maximum);
      SavedIsWellFormed(k, session.Contents(), session.State());
    }
  }

  /** Whatever bytes it was read from, a restored session is well formed. */
  lemma SavedIsWellFormed(k: Kernels, saved: Saved, s: Generation.Session<View>)
    requires SavedOk(k, saved) &&
             s == Generation.Session(View(saved.rows, |saved.history|), saved.history, saved.logits, saved.hasLogits,
                                     true)
    ensures SessionInvariant.WellFormed(Hy3Model(k), s)
  {}

  method RestoreFrame(k: Kernels, session: ChatSession, sha: Sha256, fingerprint: Digest, frame: Frame, maximum: nat,
                      memory: bool)
    returns (failure: Option<SessionError>)
    requires session.Valid(k) && FrameOk(frame)
    modifies session, session.scalar, session.scalar.cache
    ensures session.Valid(k)
    ensures failure == None ==>
              DecodeFrame(k, sha, fingerprint, frame, maximum) == Some(session.Contents()) &&
              session.healthy && session.scalar.position == |session.history|
    ensures memory ==> (failure == None <==> DecodeFrame(k, sha, fingerprint, frame, maximum).Some?)
  {
    if frame.lengths[0] > k.shape.capacity {
      return Some(SessionHistoryLength);
    }
    if frame.lengths[1] != k.vocabulary {
      return Some(SessionLogitLength);
    }
    if frame.hasLogits != (frame.lengths[0] > 0) {
      return Some(SessionLogitState);
    }
    var contents := ReadContents(k.vocabulary, frame.lengths[0], frame.rest);
    if contents.Err? {
      return Some(contents.error);
    }
    var (history, logits, kv) := contents.value;
    TakeContentsIsCanonical(k.vocabulary, frame.lengths[0], frame.rest);
    if |kv| < frame.lengths[2] {
      return Some(TruncatedSessionSnapshot);
    }
    if |kv| > frame.lengths[2] {
      return Some(SessionTrailingBytes);
    }
    failure := Install(k, session, sha, fingerprint, history, logits, frame.hasLogits, kv, maximum, memory);
  }

  /** The KV cache is restored first, then the fields that depend on its length. */
  method Install(k: Kernels, session: ChatSession, sha: Sha256, fingerprint: Digest, history: seq<nat>,
                 logits: seq<F32>, hasLogits: bool, kv: seq<byte>, maximum: nat, memory: bool)
    returns (failure: Option<SessionError>)
    requires session.Valid(k) && |logits| == k.vocabulary
    modifies session, session.scalar, session.scalar.cache
    ensures session.Valid(k)
    ensures failure == None ==>
              DecodeKv(k, sha, fingerprint, history, logits, hasLogits, kv, maximum) == Some(session.Contents()) &&
              session.healthy && session.scalar.position == |session.history|
    ensures memory ==>
              (failure == None <==> DecodeKv(k, sha, fingerprint, history, logits, hasLogits, kv, maximum).Some?)
  {
    var refused := session.scalar.RestoreKv(k, sha, fingerprint, kv, maximum, memory);
    if refused.Some? {
      return Some(Kv(refused.value));
    }
    if session.scalar.position != |history| {
      return Some(SessionPositionMismatch);
    }
    session.history, session.logits, session.hasLogits, session.healthy := history, logits, hasLogits, true;
    failure := None;
  }

  /** Every well-formed session survives a save and a restore under the same limit: if it can be
      exported at all, the restored session is in the same state. */
  method SaveAndRestore(k: Kernels, session: ChatSession, sha: Sha256, fingerprint: Digest, maximum: nat)
    returns (saved: Result<seq<byte>, SessionError>, copy: ChatSession, failure: Option<SessionError>)
    requires session.Valid(k) && maximum <= USIZE_MAX && k.vocabulary <= 0x1_0000_0000
    requires SessionInvariant.WellFormed(Hy3Model(k), session.State())
    ensures fresh(copy) && fresh(copy.scalar) && fresh(copy.scalar.cache) && copy.Valid(k) && session.Valid(k)
    ensures session.State() == old(session.State())
    ensures saved.Ok? <==> session.healthy && AllFinite(session.logits) && LaneCount(k.shape) <= USIZE_MAX &&
                           SessionBytes(k, session.Contents()) <= maximum
    ensures saved.Ok? ==> failure == None && copy.State() == session.State()
  {
    saved := ExportSession(k, session, sha, fingerprint, maximum);
    if saved.Err? {
      copy := new ChatSession(k);
      return saved, copy, None;
    }
    ghost var contents := session.Contents();
    FlatValidRows(k.shape, contents.rows);
    EncodeSessionLength(k, sha, fingerprint, contents);
    assert SavedOk(k, contents);
    SessionRoundTrip(k, sha, fingerprint, contents, maximum);
    copy, failure := RestoreSession(k, sha, fingerprint, saved.value, maximum, true);
  }

  /** The other way round, for every accepted byte string: exporting the session it restores to,
      under the same limit, gives the same bytes back. */
  method RestoreAndSave(k: Kernels, sha: Sha256, fingerprint: Digest, bytes: seq<byte>, maximum: nat, memory: bool)
    returns (session: ChatSession, failure: Option<SessionError>, again: Result<seq<byte>, SessionError>)
    requires k.Valid() && maximum <= USIZE_MAX
    ensures fresh(session) && fresh(session.scalar) && fresh(session.scalar.cache) && session.Valid(k)
    ensures memory ==> (failure == None <==> DecodeSession(k, sha, fingerprint, bytes, maximum).Some?)
    ensures failure == None && LaneCount(k.shape) <= USIZE_MAX ==> again == Ok(bytes)
  {
    session, failure := RestoreSession(k, sha, fingerprint, bytes, maximum, memory);
    again := Err(UnhealthySessionSnapshot);
    if failure == None {
      SessionCanonical(k, sha, fingerprint, bytes, maximum);
      FlatValidRows(k.shape, session.scalar.cache.Rows());
      EncodeSessionLength(k, sha, fingerprint, session.Contents());
      again := ExportSession(k, session, sha, fingerprint, maximum);
    }
  }
}
